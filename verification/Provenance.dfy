/** Every change in a run has its reason: what each event does to the whole store, who sent the
    event that changed a lease, and when a lease may expire. */
module Provenance {
  import opened Coins
  import opened Types
  import opened Reservations
  import opened Accrual
  import opened Text
  import opened DomainIndex
  import opened Names
  import opened Ledger
  import opened Invariants
  import opened Reachable
  import opened Lifetime
  import opened Payments
  import opened Structure
  import opened Success
  import opened Overrun
  import opened Pricing
  import opened Expiry
  import opened DomainEdits
  import opened Access
  import opened Effects
  import MinimumDuration
  import Conservation
  import UuidV7

  // ---------------------------------------------------------------- accounts come only with funding

  lemma SetLeaseKeepsAccounts(st: Store, l: Lease)
    ensures SetLease(st, l).Ok? ==> SetLease(st, l).value.accounts == st.accounts
  {
    hide Reconcile, SkuEntries;
  }

  lemma MoveKeepsTenants(st: Store, l: Lease, c: AccountChange, wrap: bool)
    requires AccountsFiled(st.accounts) && Move(st, l, c, wrap).Ok?
    ensures Move(st, l, c, wrap).value.accounts.Keys == st.accounts.Keys
  {
    hide SetLease;
    SetLeaseKeepsAccounts(st, l);
    assert st.accounts[l.tenant].tenant == l.tenant;
    hide AccountsFiled, Changed;
  }

  lemma FinishKeepsTenants(st: Store, env: Env, l: Lease, silent: bool, reason: string, wrap: bool)
    requires AccountsFiled(st.accounts) && Finish(st, env, l, silent, reason, wrap).Ok?
    ensures Finish(st, env, l, silent, reason, wrap).value.st.accounts.Keys == st.accounts.Keys
  {
    hide AccountsFiled, Settle, Move, ClosedLease, Release;
    MoveKeepsTenants(st.(bank := Settle(st.bank, env.catalog, l, env.now, silent).value.bank), ClosedLease(l, env.now, reason), DropActive(Release(st, l)), wrap);
  }

  lemma PendingKeepsTenants(st: Store, now: Time, l: Lease, reason: string)
    requires AccountsFiled(st.accounts)
    ensures AcknowledgeOne(st, now, l).Ok? ==> AcknowledgeOne(st, now, l).value.st.accounts.Keys == st.accounts.Keys
    ensures RejectOne(st, now, l, reason).Ok? ==> RejectOne(st, now, l, reason).value.st.accounts.Keys == st.accounts.Keys
    ensures ExpireOne(st, now, l).Ok? ==> ExpireOne(st, now, l).value.st.accounts.Keys == st.accounts.Keys
  {
    hide AccountsFiled, Move, Acknowledged, RejectedLease, ExpiredLease, Release;
    if AcknowledgeOne(st, now, l).Ok? {
      MoveKeepsTenants(st, Acknowledged(l, now), Promote, true);
    }
    if RejectOne(st, now, l, reason).Ok? {
      MoveKeepsTenants(st, RejectedLease(l, now, reason), DropPending(Release(st, l)), true);
    }
    if ExpireOne(st, now, l).Ok? {
      MoveKeepsTenants(st, ExpiredLease(l, now), DropPending(Release(st, l)), false);
    }
  }

  lemma SettlingKeepsTenants(st: Store, env: Env, l: Lease, reason: string)
    requires AccountsFiled(st.accounts)
    ensures CloseOne(st, env, l, reason).Ok? ==> CloseOne(st, env, l, reason).value.st.accounts.Keys == st.accounts.Keys
    ensures WithdrawOne(st, env, l).Ok? ==> WithdrawOne(st, env, l).value.st.accounts.Keys == st.accounts.Keys
    ensures SweepOne(st, env, l).Ok? ==> SweepOne(st, env, l).value.st.accounts.Keys == st.accounts.Keys
  {
    hide AccountsFiled, Finish, Settle, SetLease, ShouldAutoClose, MakeReceipt, SettleTime;
    forall silent, reason, wrap | Finish(st, env, l, silent, reason, wrap).Ok?
      ensures Finish(st, env, l, silent, reason, wrap).value.st.accounts.Keys == st.accounts.Keys
    {
      FinishKeepsTenants(st, env, l, silent, reason, wrap);
    }
    forall bank, at ensures SetLease(st.(bank := bank), l.(lastSettledAt := at)).Ok? ==>
                              SetLease(st.(bank := bank), l.(lastSettledAt := at)).value.accounts == st.accounts
    {
      SetLeaseKeepsAccounts(st.(bank := bank), l.(lastSettledAt := at));
    }
  }

  lemma OneKeepsTenants(op: Op, env: Env, st: Store, u: Uuid)
    requires AccountsFiled(st.accounts) && One(op, env, st, u).Ok?
    ensures One(op, env, st, u).value.st.accounts.Keys == st.accounts.Keys
  {
    hide AccountsFiled, AcknowledgeOne, RejectOne, ExpireOne, CloseOne, WithdrawOne, SweepOne;
    if u in st.leases {
      var reason := if op.OpReject? then op.reason else if op.OpClose? then op.reason else "";
      PendingKeepsTenants(st, env.now, st.leases[u], reason);
      SettlingKeepsTenants(st, env, st.leases[u], reason);
    }
  }

  lemma FiledAccounts(st: Store)
    requires Indexed(st)
    ensures AccountsFiled(st.accounts)
  {
    hide Exact, SkuExact, Sheltered, Counted, LeasesFiled, AccountsFiled, CreditIndexOf;
  }

  lemma {:induction false} BatchKeepsTenants(op: Op, env: Env, st: Store, us: seq<Uuid>)
    requires Indexed(st) && Batch(op, env, st, us).Ok?
    ensures Batch(op, env, st, us).value.st.accounts.Keys == st.accounts.Keys
    decreases |us|
  {
    hide Indexed, One, OnlyEvolved, ReservedExactly, AccountsFiled;
    if us != [] {
      var n := |us| - 1;
      BatchKeepsTenants(op, env, st, us[..n]);
      BatchIsKept(op, env, st, us[..n]);
      var before := Batch(op, env, st, us[..n]).value.st;
      FiledAccounts(before);
      OneKeepsTenants(op, env, before, us[n]);
    }
  }

  // ---------------------------------------------------------------- what every event does

  /** Parameters, sequence number and the set of accounts stay. */
  predicate Steady(st: Store, st': Store) {
    st'.params == st.params && st'.sequence == st.sequence && st'.accounts.Keys == st.accounts.Keys
  }

  /** No money moves either. */
  ghost predicate Quiet(st: Store, out: Out) {
    Steady(st, out.st) && out.receipts == [] && forall a, d :: Holding(out.st.bank, a, d) == Holding(st.bank, a, d)
  }

  /** The leases after the end of a block. */
  predicate AllExpired(st: Store, now: Time, leases': map<Uuid, Lease>) {
    && leases'.Keys == st.leases.Keys
    && forall u :: u in st.leases ==>
         leases'[u] == if TimedOut(st.params, st.leases[u], now) && |TimedOutBefore(st, now, u)| < 100
                       then st.leases[u].(state := Expired, expiredAt := Some(now)) else st.leases[u]
  }

  /** A batch that settles: the leases, and what is left of every tenant's credit. */
  ghost predicate Collected(op: Op, env: Env, st: Store, us: seq<Uuid>, out: Out) {
    && Steady(st, out.st)
    && ((forall u :: u in us && u in st.leases ==> Chargeable(env.catalog, st.leases[u], env.now)) ==>
          && AllSettled(op, st.bank, st.leases, us, env.now, out.st.leases)
          && forall t, d :: Holding(out.st.bank, Credit(t), d) == CreditAfter(st.bank, st.leases, us, t, d, env.now))
  }

  /** What an accepted event does to the store. */
  ghost predicate Does(env: Env, st: Store, ev: Event, out: Out) {
    match ev
    case Fund(sender, tenant, amount) => Funded(st, sender, tenant, amount, out.st)
    case Create(tenant, inputs, metaHash) => Created(env, st, tenant, inputs, metaHash, out.st)
    case CreateFor(_, tenant, inputs, metaHash) => Created(env, st, tenant, inputs, metaHash, out.st)
    case Acknowledge(_, us) => AllAnswered(OpAcknowledge, st.leases, us, env.now, out.st.leases) && Quiet(st, out)
    case Reject(_, us, reason) => AllAnswered(OpReject(reason), st.leases, us, env.now, out.st.leases) && Quiet(st, out)
    case Cancel(_, us) => AllAnswered(OpReject("cancelled by tenant"), st.leases, us, env.now, out.st.leases) && Quiet(st, out)
    case Close(_, us, reason) => Collected(OpClose(reason), env, st, us, out)
    case Withdraw(_, us) => Collected(OpWithdraw, env, st, us, out)
    case Sweep(_, provider, limit) => Collected(OpSweep, env, st, SweepTargets(st, provider, limit), out)
    case SetDomain(_, u, service, domain) => Edited(st, u, service, domain, out.st)
    case SetParams(_, params) => out == Out(st.(params := params), [])
    case BlockEnd => AllExpired(st, env.now, out.st.leases) && Quiet(st, out)
    case External(bank) => out == Out(st.(bank := bank), [])
  }

  lemma UnpaidIsQuiet(op: Op, env: Env, st: Store, us: seq<Uuid>)
    requires Indexed(st) && Batch(op, env, st, us).Ok? && Batch(op, env, st, us).value.receipts == []
    ensures Quiet(st, Batch(op, env, st, us).value)
  {
    hide Indexed, Batch, OnlyEvolved, ReservedExactly, Holding, SameSupply;
    BatchIsKept(op, env, st, us);
    BatchKeepsTenants(op, env, st, us);
    BatchIsAccounted(op, env, st, us);
    var out := Batch(op, env, st, us).value;
    forall a, d ensures Holding(out.st.bank, a, d) == Holding(st.bank, a, d) {
      assert PaidBy(out.receipts, a, d) == 0 && ReceivedBy(out.receipts, a, d) == 0;
    }
  }

  lemma AnswerDoes(op: Op, env: Env, st: Store, us: seq<Uuid>)
    requires Indexed(st) && (op.OpAcknowledge? || op.OpReject?) && WellListed(us) && AllIn(st.leases, us, Pending) && Batch(op, env, st, us).Ok?
    ensures AllAnswered(op, st.leases, us, env.now, Batch(op, env, st, us).value.st.leases) && Quiet(st, Batch(op, env, st, us).value)
  {
    hide Indexed, Batch, AllAnswered, Quiet, UuidV7.IsValidUUIDv7;
    assert Distinct(us);
    BatchAnswers(op, env, st, us);
    UnpaidIsQuiet(op, env, st, us);
  }

  lemma BlockDoes(env: Env, st: Store)
    requires Indexed(st)
    ensures EndBlock(env, st).Ok? && AllExpired(st, env.now, EndBlock(env, st).value.st.leases) && Quiet(st, EndBlock(env, st).value)
  {
    var us := DueNow(st, env.now);
    assert EndBlock(env, st) == Batch(OpExpire, env, st, us);
    hide Indexed, EndBlock, Batch, TimedOut, TimedOutBefore, DueNow, Quiet, Expiring, OnlyEvolved, ReservedExactly, OverdueLeases;
    EndBlockExpires(env, st);
    UnpaidIsQuiet(OpExpire, env, st, us);
    BatchIsKept(OpExpire, env, st, us);
    var leases' := EndBlock(env, st).value.st.leases;
    assert leases'.Keys == st.leases.Keys by { KeysKept(st, us, EndBlock(env, st).value.st); }
    forall u | u in st.leases
      ensures leases'[u] == if TimedOut(st.params, st.leases[u], env.now) && |TimedOutBefore(st, env.now, u)| < 100
                            then st.leases[u].(state := Expired, expiredAt := Some(env.now)) else st.leases[u]
    {
      BlockExpiresIff(env, st, u);
    }
  }

  lemma KeysKept(st: Store, us: seq<Uuid>, st': Store)
    requires KeptAll(st, us, st')
    ensures st'.leases.Keys == st.leases.Keys && st'.params == st.params && st'.sequence == st.sequence
  {
    hide Indexed, ReservedExactly, EvolvesStar;
  }

  lemma BatchCollects(op: Op, env: Env, st: Store, us: seq<Uuid>)
    requires Indexed(st) && Timely(st.leases, env.now) && AllOk(st.leases) && Batch(op, env, st, us).Ok? && Charges(op) && Distinct(us)
    requires op.OpSweep? ==> forall u :: u in us ==> u in st.leases && st.leases[u].providerUuid in env.catalog.providers
    ensures Collected(op, env, st, us, Batch(op, env, st, us).value)
  {
    hide Indexed, Timely, AllOk, Batch, Chargeable, AllSettled, CreditAfter, Holding, KeptAll, Distinct;
    var out := Batch(op, env, st, us).value;
    BatchIsKept(op, env, st, us);
    KeysKept(st, us, out.st);
    BatchKeepsTenants(op, env, st, us);
    if forall u :: u in us && u in st.leases ==> Chargeable(env.catalog, st.leases[u], env.now) {
      AllSweptCharged(op, env, st, us);
      BatchSettles(op, env, st, us);
      forall t, d ensures Holding(out.st.bank, Credit(t), d) == CreditAfter(st.bank, st.leases, us, t, d, env.now) {
        SettlesDraws(op, env, st, us, t, d);
      }
    }
  }

  lemma AllSweptCharged(op: Op, env: Env, st: Store, us: seq<Uuid>)
    requires Timely(st.leases, env.now) && Batch(op, env, st, us).Ok? && Charges(op) && Distinct(us)
    requires op.OpSweep? ==> forall u :: u in us ==> u in st.leases && st.leases[u].providerUuid in env.catalog.providers
    requires forall u :: u in us && u in st.leases ==> Chargeable(env.catalog, st.leases[u], env.now)
    ensures Settles(op, env, st, us)
  {
    hide Batch, Chargeable, TimelyLease, Distinct;
  }

  lemma AnswerMessage(env: Env, st: Store, ev: Event)
    requires (ev.Acknowledge? || ev.Reject? || ev.Cancel?) && Handle(env, st, ev).Ok? && Indexed(st) && AllOk(st.leases) && Timely(st.leases, env.now)
    requires st.params.minLeaseDuration > 0
    ensures Does(env, st, ev, Handle(env, st, ev).value)
  {
    hide Indexed, AllOk, Timely, Handle, Batch, WellListed, AllIn, AllAnswered, Quiet, OneProvider, ActsForAll;
    HandleIsBatch(env, st, ev);
    HandleIff(env, st, ev);
    AnswerDoes(BatchOp(ev), env, st, ev.uuids);
  }

  lemma SettlingMessage(env: Env, st: Store, ev: Event)
    requires MinimumDuration.Settling(ev) && Handle(env, st, ev).Ok? && Indexed(st) && AllOk(st.leases) && Timely(st.leases, env.now)
    ensures Does(env, st, ev, Handle(env, st, ev).value)
  {
    hide Indexed, AllOk, Timely, Handle, Batch, Collected, Distinct, SweepTargets;
    HandleIsBatch(env, st, ev);
    if ev.Sweep? {
      SweepIsAuthorized(env, st, ev);
      SweptLeases(st, ev.provider, ev.limit);
    } else {
      BatchMessageIsDistinct(env, st, ev);
    }
    BatchCollects(BatchOp(ev), env, st, BatchTargets(env, st, ev));
  }

  /** What every accepted event does, for every store with the invariants. */
  lemma HandleDoes(env: Env, st: Store, ev: Event)
    requires Good(st) && AllOk(st.leases) && Timely(st.leases, env.now) && Handle(env, st, ev).Ok?
    ensures Does(env, st, ev, Handle(env, st, ev).value)
  {
    FiledAccounts(st);
    hide Indexed, AllOk, Timely, FundCredit, CreateLease, CreateLeaseForTenant, AcknowledgeLease, RejectLease, CancelLease, CloseLease, WithdrawLeases,
         WithdrawAll, SetItemCustomDomain, EndBlock, Funded, Created, Edited, AllExpired, Quiet, Collected, AllAnswered, AccountsFiled, SweepTargets;
    if ev.Acknowledge? || ev.Reject? || ev.Cancel? {
      AnswerMessage(env, st, ev);
    } else if MinimumDuration.Settling(ev) {
      SettlingMessage(env, st, ev);
    } else if Creates(ev) {
      CreationIsCreateLease(env, st, ev);
      CreateDoes(env, st, ev.tenant, ev.inputs, ev.metaHash);
    } else if ev.Fund? {
      FundDoes(st, ev.sender, ev.tenant, ev.amount);
    } else if ev.SetDomain? {
      SetDomainIff(env, st, ev.sender, ev.uuid, ev.service, ev.domain);
    } else if ev.SetParams? {
      ParamsOutcome(env, st, ev.sender, ev.params);
    } else if ev.BlockEnd? {
      BlockDoes(env, st);
    }
  }

  lemma ParamsOutcome(env: Env, st: Store, sender: Address, params: Params)
    ensures UpdateParams(env, st, sender, params).Ok? ==> UpdateParams(env, st, sender, params).value == Out(st.(params := params), [])
  {
    hide ValidParams;
  }

  // ---------------------------------------------------------------- whose event it was

  /** The record after a settling message: ended, for a reason, or settled up to now. */
  predicate MaySettleTo(l: Lease, now: Time, l': Lease) {
    l.state == Active && (l' == l.(lastSettledAt := now) || l' == Ended(l, now, "credit exhausted"))
  }

  /** Why the record of a lease may be new or different after an event. */
  predicate Warranted(env: Env, st: Store, ev: Event, u: Uuid, l: Lease, l': Lease) {
    match ev
    case Acknowledge(sender, us) =>
      u in us && ActsFor(env, sender, l.providerUuid) && l.state == Pending &&
      l' == l.(state := Active, acknowledgedAt := Some(env.now), lastSettledAt := env.now)
    case Reject(sender, us, reason) =>
      u in us && ActsFor(env, sender, l.providerUuid) && l.state == Pending &&
      l' == l.(state := Rejected, rejectedAt := Some(env.now), rejectionReason := reason)
    case Cancel(tenant, us) =>
      u in us && tenant == l.tenant && l.state == Pending &&
      l' == l.(state := Rejected, rejectedAt := Some(env.now), rejectionReason := "cancelled by tenant")
    case Close(sender, us, reason) =>
      u in us && (sender == l.tenant || sender == env.authority || ActsFor(env, sender, l.providerUuid)) && l.state == Active &&
      (l' == Ended(l, env.now, reason) || l' == Ended(l, env.now, "credit exhausted"))
    case Withdraw(sender, us) => u in us && ActsFor(env, sender, l.providerUuid) && MaySettleTo(l, env.now, l')
    case Sweep(sender, provider, _) => l.providerUuid == provider && ActsFor(env, sender, provider) && MaySettleTo(l, env.now, l')
    case SetDomain(sender, v, service, domain) =>
      u == v && (sender == l.tenant || Trusted(env, st, sender)) && Live(l) &&
      exists i :: 0 <= i < |l.items| && IsOnly(l.items, service, i) && l' == l.(items := l.items[i := l.items[i].(customDomain := domain)])
    case BlockEnd => TimedOut(st.params, l, env.now) && l' == l.(state := Expired, expiredAt := Some(env.now))
    case _ => false
  }

  /** A new lease was ordered by its tenant, or for it by the authority or the allowed list. */
  predicate Ordered(env: Env, st: Store, ev: Event, l: Lease) {
    match ev
    case Create(tenant, inputs, metaHash) => IsNewLease(env, st, tenant, inputs, metaHash, l)
    case CreateFor(sender, tenant, inputs, metaHash) => Trusted(env, st, sender) && IsNewLease(env, st, tenant, inputs, metaHash, l)
    case _ => false
  }

  /** No lease disappears, every new one was ordered, and every changed one was changed by an event
      that may do so. */
  predicate AllWarranted(env: Env, st: Store, ev: Event, leases': map<Uuid, Lease>) {
    && (forall u :: u in st.leases ==> u in leases' && (leases'[u] == st.leases[u] || Warranted(env, st, ev, u, st.leases[u], leases'[u])))
    && (forall u :: u in leases' && u !in st.leases ==> Ordered(env, st, ev, leases'[u]))
  }

  lemma AnswersAreWarranted(env: Env, st: Store, ev: Event, leases': map<Uuid, Lease>)
    requires (ev.Acknowledge? || ev.Reject? || ev.Cancel?) && Permits(env, st, ev)
    requires AllAnswered(if ev.Acknowledge? then OpAcknowledge else OpReject(if ev.Reject? then ev.reason else "cancelled by tenant"),
                         st.leases, ev.uuids, env.now, leases')
    ensures AllWarranted(env, st, ev, leases')
  {
    hide WellListed, OneProvider, ActsFor;
  }

  /** What a settling batch may do to any lease, overflowing ones and unknown providers included. */
  predicate AllTouched(op: Op, leases: map<Uuid, Lease>, us: seq<Uuid>, now: Time, leases': map<Uuid, Lease>) {
    && leases'.Keys == leases.Keys
    && forall u :: u in leases && leases'[u] != leases[u] ==>
         u in us && leases[u].state == Active && (leases'[u] == Settled(op, true, leases[u], now) || leases'[u] == Settled(op, false, leases[u], now))
  }

  lemma OneTouches(op: Op, env: Env, st: Store, u: Uuid)
    requires Indexed(st) && Charges(op) && u in st.leases && TimelyLease(st.leases[u], env.now) && LeaseOk(st.leases[u]) && One(op, env, st, u).Ok?
    ensures var l, leases' := st.leases[u], One(op, env, st, u).value.st.leases;
            || leases' == st.leases
            || (l.state == Active && (leases' == st.leases[u := Settled(op, true, l, env.now)] || leases' == st.leases[u := Settled(op, false, l, env.now)]))
  {
    hide Indexed, Strict, Exhausted, TimelyLease, LeaseOk;
    if Strict(op, env, st, u).Ok? {
      StepWrites(op, env, st, u);
      Unmoved(st.leases, u);
    }
  }

  lemma TouchedNext(op: Op, leases: map<Uuid, Lease>, us: seq<Uuid>, now: Time, before: map<Uuid, Lease>, after: map<Uuid, Lease>)
    requires us != [] && Distinct(us) && us[|us| - 1] in leases && AllTouched(op, leases, us[..|us| - 1], now, before)
    requires var u := us[|us| - 1];
             || after == before
             || (leases[u].state == Active && (after == before[u := Settled(op, true, leases[u], now)] || after == before[u := Settled(op, false, leases[u], now)]))
    ensures AllTouched(op, leases, us, now, after)
  {
    hide Settled;
    LastOf(us);
  }

  lemma {:induction false} BatchTouches(op: Op, env: Env, st: Store, us: seq<Uuid>)
    requires Indexed(st) && Timely(st.leases, env.now) && AllOk(st.leases) && Charges(op) && Distinct(us) && Batch(op, env, st, us).Ok?
    requires forall u :: u in us ==> u in st.leases
    ensures AllTouched(op, st.leases, us, env.now, Batch(op, env, st, us).value.st.leases)
    decreases |us|
  {
    hide Indexed, Timely, AllOk, One, Settled, OnlyEvolved, ReservedExactly, TimelyLease, LeaseOk;
    if us != [] {
      var n := |us| - 1;
      LastOf(us);
      hide AllTouched;
      BatchTouches(op, env, st, us[..n]);
      var before := Batch(op, env, st, us[..n]).value.st;
      BatchIsKept(op, env, st, us[..n]);
      BatchLeavesOthers(op, env, st, us[..n], us[n]);
      TimelyAt(st.leases, us[n], env.now);
      OkAt(st.leases, us[n]);
      OneTouches(op, env, before, us[n]);
      TouchedNext(op, st.leases, us, env.now, before.leases, Batch(op, env, st, us).value.st.leases);
    }
  }

  /** The sender of a settling message against one of its leases. */
  lemma SettlerIs(env: Env, st: Store, ev: Event, us: seq<Uuid>, u: Uuid)
    requires MinimumDuration.Settling(ev) && Permits(env, st, ev)
    requires us == if ev.Sweep? then SweepTargets(st, ev.provider, ev.limit) else ev.uuids
    requires u in us && u in st.leases && (ev.Sweep? ==> st.leases[u].providerUuid == ev.provider)
    ensures var l := st.leases[u];
            if ev.Close? then ev.sender == l.tenant || ev.sender == env.authority || ActsFor(env, ev.sender, l.providerUuid)
            else ActsFor(env, ev.sender, l.providerUuid)
  {
    hide WellListed, OneProvider, SweepTargets, Collectable, UuidV7.IsValidUUIDv7, AllIn;
  }

  lemma SettledIsWarranted(env: Env, st: Store, ev: Event, us: seq<Uuid>, u: Uuid, usedUp: bool)
    requires MinimumDuration.Settling(ev) && Permits(env, st, ev)
    requires us == if ev.Sweep? then SweepTargets(st, ev.provider, ev.limit) else ev.uuids
    requires u in us && u in st.leases && (ev.Sweep? ==> st.leases[u].providerUuid == ev.provider) && st.leases[u].state == Active
    ensures var op := if ev.Close? then OpClose(ev.reason) else if ev.Withdraw? then OpWithdraw else OpSweep;
            var l, l' := st.leases[u], Settled(op, usedUp, st.leases[u], env.now);
            l' == l || Warranted(env, st, ev, u, l, l')
  {
    hide Permits, SweepTargets, ActsFor;
    SettlerIs(env, st, ev, us, u);
  }

  lemma TouchedIsWarranted(env: Env, st: Store, ev: Event, us: seq<Uuid>, leases': map<Uuid, Lease>)
    requires MinimumDuration.Settling(ev) && Permits(env, st, ev)
    requires us == if ev.Sweep? then SweepTargets(st, ev.provider, ev.limit) else ev.uuids
    requires ev.Sweep? ==> forall u :: u in us ==> u in st.leases && st.leases[u].providerUuid == ev.provider
    requires AllTouched(if ev.Close? then OpClose(ev.reason) else if ev.Withdraw? then OpWithdraw else OpSweep, st.leases, us, env.now, leases')
    ensures AllWarranted(env, st, ev, leases')
  {
    hide Permits, SweepTargets, Warranted, Settled, Ordered;
    forall u | u in st.leases && leases'[u] != st.leases[u] ensures Warranted(env, st, ev, u, st.leases[u], leases'[u]) {
      SettledIsWarranted(env, st, ev, us, u, true);
      SettledIsWarranted(env, st, ev, us, u, false);
    }
  }

  lemma SettlingIsWarranted(env: Env, st: Store, ev: Event)
    requires MinimumDuration.Settling(ev) && Handle(env, st, ev).Ok? && Good(st) && AllOk(st.leases) && Timely(st.leases, env.now)
    ensures AllWarranted(env, st, ev, Handle(env, st, ev).value.st.leases)
  {
    hide Indexed, AllOk, Timely, Handle, Batch, Distinct, SweepTargets, AllTouched, AllWarranted, Permits;
    HandleIsBatch(env, st, ev);
    HandleIff(env, st, ev);
    if ev.Sweep? {
      SweptLeases(st, ev.provider, ev.limit);
    } else {
      BatchMessageIsDistinct(env, st, ev);
      SettlingListsLeases(env, st, ev);
    }
    var us := if ev.Sweep? then SweepTargets(st, ev.provider, ev.limit) else ev.uuids;
    BatchTouches(BatchOp(ev), env, st, us);
    TouchedIsWarranted(env, st, ev, us, Handle(env, st, ev).value.st.leases);
  }

  lemma SettlingListsLeases(env: Env, st: Store, ev: Event)
    requires (ev.Close? || ev.Withdraw?) && Permits(env, st, ev)
    ensures forall u :: u in ev.uuids ==> u in st.leases
  {
    hide WellListed, OneProvider, Collectable, MayEnd, ActsForAll;
  }

  lemma BlockIsWarranted(env: Env, st: Store, leases': map<Uuid, Lease>)
    requires AllExpired(st, env.now, leases')
    ensures AllWarranted(env, st, BlockEnd, leases')
  {
    hide TimedOut, TimedOutBefore;
  }

  lemma EditorIs(env: Env, st: Store, ev: Event)
    requires ev.SetDomain? && Permits(env, st, ev)
    ensures ev.uuid in st.leases && Live(st.leases[ev.uuid])
    ensures ev.sender == st.leases[ev.uuid].tenant || Trusted(env, st, ev.sender)
  {
    hide NamedOnce, FreeFor, ValidFqdn, Reserved, ValidLabel, UuidV7.IsValidUUIDv7;
  }

  lemma EditIsWarranted(env: Env, st: Store, ev: Event, st': Store)
    requires ev.SetDomain? && Permits(env, st, ev) && Edited(st, ev.uuid, ev.service, ev.domain, st')
    ensures AllWarranted(env, st, ev, st'.leases)
  {
    hide Permits, Leads, IsOnly, Stored, Trusted, Live;
    EditorIs(env, st, ev);
    var i: nat :| Stored(st, ev.uuid, i, ev.service, ev.domain, st');
    StoredLease(st, ev.uuid, i, ev.service, ev.domain, st');
  }

  lemma StoredLease(st: Store, u: Uuid, i: nat, service: string, d: string, st': Store)
    requires Stored(st, u, i, service, d, st')
    ensures u in st.leases && i < |st.leases[u].items| && IsOnly(st.leases[u].items, service, i)
    ensures st'.leases == st.leases[u := st.leases[u].(items := st.leases[u].items[i := st.leases[u].items[i].(customDomain := d)])]
  {
    hide IsOnly;
  }

  lemma CreationIsWarranted(env: Env, st: Store, ev: Event, st': Store)
    requires Creates(ev) && Permits(env, st, ev) && Created(env, st, ev.tenant, ev.inputs, ev.metaHash, st') && NextUuid(env, st) !in st.leases
    ensures AllWarranted(env, st, ev, st'.leases)
  {
    hide MayCreate, IsNewLease, UuidV7.Generate;
  }

  lemma UnchangedIsWarranted(env: Env, st: Store, ev: Event)
    ensures AllWarranted(env, st, ev, st.leases)
  {
    hide Warranted;
  }

  lemma ParamsByAuthority(env: Env, st: Store, ev: Event)
    requires Good(st) && (Creates(ev) && Handle(env, st, ev).Ok? ==> NextUuid(env, st) !in st.leases)
    ensures Deliver(env, st, ev).st.params != st.params ==> ev.SetParams? && ev.sender == env.authority
  {
    if !ev.SetParams? {
      hide Good, Handle, Deliver, NextUuid;
      DeliverKeepsParams(env, st, ev);
    } else {
      hide Good, NextUuid, MaySetParams;
      ParamsIff(env, st, ev.sender, ev.params);
      AuthoritySets(env, ev.sender, ev.params);
    }
  }

  lemma AuthoritySets(env: Env, sender: Address, params: Params)
    ensures MaySetParams(env, sender, params) ==> sender == env.authority
  {
    hide ValidSuffix;
  }

  /** Every change of a lease is warranted by the event that made it and by who sent it. */
  lemma DeliverIsWarranted(env: Env, st: Store, ev: Event)
    requires Good(st) && AllOk(st.leases) && Timely(st.leases, env.now)
    requires Creates(ev) && Handle(env, st, ev).Ok? ==> NextUuid(env, st) !in st.leases
    ensures AllWarranted(env, st, ev, Deliver(env, st, ev).st.leases)
    ensures Deliver(env, st, ev).st.params != st.params ==> ev.SetParams? && ev.sender == env.authority
  {
    hide Indexed, AllOk, Timely, Handle, Permits, AllWarranted, NextUuid, Funded, Created, Edited, AllExpired, Quiet, Collected, AllAnswered;
    ParamsByAuthority(env, st, ev);
    UnchangedIsWarranted(env, st, ev);
    if Handle(env, st, ev).Ok? {
      HandleIff(env, st, ev);
      HandleDoes(env, st, ev);
      var out := Handle(env, st, ev).value;
      if ev.Acknowledge? || ev.Reject? || ev.Cancel? {
        AnswersAreWarranted(env, st, ev, out.st.leases);
      } else if MinimumDuration.Settling(ev) {
        SettlingIsWarranted(env, st, ev);
      } else if Creates(ev) {
        CreationIsWarranted(env, st, ev, out.st);
      } else if ev.SetDomain? {
        EditIsWarranted(env, st, ev, out.st);
      } else if ev.BlockEnd? {
        BlockIsWarranted(env, st, out.st.leases);
      } else if ev.Fund? {
        FundedKeepsLeases(st, ev.sender, ev.tenant, ev.amount, out.st);
      }
    }
  }

  lemma FundedKeepsLeases(st: Store, sender: Address, tenant: Address, amount: Coin, st': Store)
    requires Funded(st, sender, tenant, amount, st')
    ensures st'.leases == st.leases
  {
    hide Paid;
  }

  // ---------------------------------------------------------------- who takes a tenant's credit

  lemma {:induction false} PaidHasReceipt(rs: seq<Receipt>, a: Address, d: string) returns (r: Receipt)
    requires PaidBy(rs, a, d) > 0
    ensures r in rs && a == Credit(r.tenant)
    decreases |rs|
  {
    var n := |rs| - 1;
    if a == Credit(rs[n].tenant) {
      r := rs[n];
    } else {
      r := PaidHasReceipt(rs[..n], a, d);
    }
  }

  lemma BatchTakes(op: Op, env: Env, st: Store, us: seq<Uuid>, t: Address, d: string)
    requires Indexed(st) && Batch(op, env, st, us).Ok? && Holding(Batch(op, env, st, us).value.st.bank, Credit(t), d) < Holding(st.bank, Credit(t), d)
    ensures exists u :: u in us && u in st.leases && st.leases[u].tenant == t
  {
    hide Indexed, Batch, PaidBy, ReceivedBy, SameSupply, Holding;
    BatchIsAccounted(op, env, st, us);
    Conservation.BatchReceipts(op, env, st, us);
    var rs := Batch(op, env, st, us).value.receipts;
    var r := PaidHasReceipt(rs, Credit(t), d);
    assert r.uuid in us && r.uuid in st.leases && st.leases[r.uuid].tenant == t;
  }

  /** A tenant's credit falls only when a lease of the tenant is settled by a close, a withdrawal or
      a sweep, or when the other modules move it; creating, answering and expiring never touch it. */
  lemma CreditFallsOnlyBySettlement(env: Env, st: Store, ev: Event, t: Address, d: string)
    requires Good(st) && AllOk(st.leases) && Timely(st.leases, env.now)
    requires Holding(Deliver(env, st, ev).st.bank, Credit(t), d) < Holding(st.bank, Credit(t), d)
    ensures ev.External? || (ev.Fund? && ev.sender == Credit(t)) ||
            (MinimumDuration.Settling(ev) && Permits(env, st, ev) && exists u :: u in BatchTargets(env, st, ev) && u in st.leases && st.leases[u].tenant == t)
  {
    hide Indexed, AllOk, Timely, Handle, Permits, Holding, Created, Edited, AllExpired, Collected, AllAnswered, BatchTargets, Batch;
    HandleIff(env, st, ev);
    HandleDoes(env, st, ev);
    var out := Handle(env, st, ev).value;
    if MinimumDuration.Settling(ev) {
      HandleIsBatch(env, st, ev);
      BatchTakes(BatchOp(ev), env, st, BatchTargets(env, st, ev), t, d);
    } else if Creates(ev) {
      CreatedKeepsBank(env, st, ev, out.st);
    } else if ev.SetDomain? {
      EditedKeepsBank(st, ev.uuid, ev.service, ev.domain, out.st);
    }
  }

  lemma CreatedKeepsBank(env: Env, st: Store, ev: Event, st': Store)
    requires Creates(ev) && Created(env, st, ev.tenant, ev.inputs, ev.metaHash, st')
    ensures st'.bank == st.bank
  {
    hide IsNewLease, UuidV7.Generate;
  }

  lemma EditedKeepsBank(st: Store, u: Uuid, service: string, d: string, st': Store)
    requires Edited(st, u, service, d, st')
    ensures st'.bank == st.bank
  {
    hide IsOnly, Leads;
  }

  // ---------------------------------------------------------------- runs

  /** What the theorems below ask of the start of a run and of the run. */
  ghost predicate Sound(st: Store, now: Time, steps: seq<Step>) {
    && Good(st) && AllOk(st.leases) && Timely(st.leases, now) && FreshRun(st, steps) && Clocked(now, steps)
    && forall i :: 0 <= i < |steps| ==> CatalogOk(steps[i].env.catalog)
  }

  lemma SoundLast(st: Store, now: Time, steps: seq<Step>)
    requires steps != [] && Sound(st, now, steps)
    ensures Sound(st, now, steps[..|steps| - 1])
  {
    hide Good, AllOk, Timely, CatalogOk, Run, Handle;
  }

  /** The store before the last step, at the time of that step. */
  lemma BeforeLast(st: Store, now: Time, steps: seq<Step>)
    requires steps != [] && Sound(st, now, steps)
    ensures var n := |steps| - 1;
            var before := Run(st, steps[..n]).st;
            && Good(before) && AllOk(before.leases) && Timely(before.leases, steps[n].env.now)
            && (Creates(steps[n].event) && Handle(steps[n].env, before, steps[n].event).Ok? ==> NextUuid(steps[n].env, before) !in before.leases)
  {
    hide Good, AllOk, Timely, CatalogOk, Run, Handle, NextUuid;
    var n := |steps| - 1;
    SoundLast(st, now, steps);
    RunKeepsGood(st, steps[..n]);
    RunIsOk(st, steps[..n]);
    RunPersists(st, now, steps[..n]);
    TimePasses(Run(st, steps[..n]).st.leases, LastTime(now, steps[..n]), steps[n].env.now);
  }

  lemma RunSplits(st: Store, steps: seq<Step>)
    requires steps != []
    ensures var n := |steps| - 1; Run(st, steps).st == Deliver(steps[n].env, Run(st, steps[..n]).st, steps[n].event).st
  {
    hide Deliver;
  }

  /** Over every run, step by step: no lease disappears, every new one was ordered, and every
      change of a lease was made by an event, and a sender, that may make it. */
  lemma {:induction false} RunIsWarranted(st: Store, now: Time, steps: seq<Step>, i: nat)
    requires Sound(st, now, steps) && i < |steps|
    ensures AllWarranted(steps[i].env, Run(st, steps[..i]).st, steps[i].event, Run(st, steps[..i + 1]).st.leases)
    decreases |steps|
  {
    hide Sound, Run, Deliver, AllWarranted, Good, AllOk, Timely, Handle, NextUuid;
    var n := |steps| - 1;
    if i < n {
      SoundLast(st, now, steps);
      RunIsWarranted(st, now, steps[..n], i);
      assert steps[..n][..i] == steps[..i] && steps[..n][..i + 1] == steps[..i + 1];
    } else {
      BeforeLast(st, now, steps);
      DeliverIsWarranted(steps[n].env, Run(st, steps[..n]).st, steps[n].event);
      RunSplits(st, steps);
      assert steps[..n + 1] == steps;
    }
  }

  /** The event that brought a lease into its state, told from the lease as it is now. */
  predicate Caused(env: Env, st: Store, ev: Event, u: Uuid, l: Lease) {
    match l.state
    case Pending => (ev.Create? && ev.tenant == l.tenant) || (ev.CreateFor? && ev.tenant == l.tenant && Trusted(env, st, ev.sender))
    case Active => ev.Acknowledge? && u in ev.uuids && ActsFor(env, ev.sender, l.providerUuid) && l.acknowledgedAt == Some(env.now)
    case Rejected =>
      && l.rejectedAt == Some(env.now)
      && (|| (ev.Reject? && u in ev.uuids && ActsFor(env, ev.sender, l.providerUuid) && l.rejectionReason == ev.reason)
          || (ev.Cancel? && u in ev.uuids && ev.tenant == l.tenant && l.rejectionReason == "cancelled by tenant"))
    case Expired => ev.BlockEnd? && l.expiredAt == Some(env.now) && env.now - l.createdAt > st.params.pendingTimeout * 1_000_000_000
    case Closed =>
      && l.closedAt == Some(env.now) == Some(l.lastSettledAt)
      && (|| (ev.Close? && u in ev.uuids && (ev.sender == l.tenant || ev.sender == env.authority || ActsFor(env, ev.sender, l.providerUuid)) &&
              (l.closureReason == ev.reason || l.closureReason == "credit exhausted"))
          || ((ev.Withdraw? || ev.Sweep?) && ActsFor(env, ev.sender, l.providerUuid) && l.closureReason == "credit exhausted"))
    case Unspecified => false
  }

  lemma WarrantedIsCause(env: Env, st: Store, ev: Event, u: Uuid, l: Lease, l': Lease)
    requires Warranted(env, st, ev, u, l, l') && l'.state != l.state
    ensures Caused(env, st, ev, u, l')
  {
    hide ActsFor, Trusted, IsOnly;
  }

  lemma OrderedIsCause(env: Env, st: Store, ev: Event, u: Uuid, l: Lease)
    requires Ordered(env, st, ev, l)
    ensures Caused(env, st, ev, u, l)
  {
    hide Trusted, Quoted;
  }

  /** Later changes within a state leave its cause readable. */
  lemma CauseStays(env: Env, st: Store, ev: Event, env': Env, st': Store, ev': Event, u: Uuid, l: Lease, l': Lease)
    requires Caused(env, st, ev, u, l) && Warranted(env', st', ev', u, l, l') && l'.state == l.state
    ensures Caused(env, st, ev, u, l')
  {
    hide ActsFor, Trusted, IsOnly;
  }

  /** Some step of the run brought lease `u` into its present state. */
  ghost predicate HasCause(st: Store, steps: seq<Step>, u: Uuid, l: Lease) {
    exists i :: 0 <= i < |steps| && Caused(steps[i].env, Run(st, steps[..i]).st, steps[i].event, u, l)
  }

  lemma CauseEarlier(st: Store, steps: seq<Step>, u: Uuid, l: Lease)
    requires steps != [] && HasCause(st, steps[..|steps| - 1], u, l)
    ensures HasCause(st, steps, u, l)
  {
    hide Caused, Run;
    var n := |steps| - 1;
    var i :| 0 <= i < n && Caused(steps[..n][i].env, Run(st, steps[..n][..i]).st, steps[..n][i].event, u, l);
    assert steps[..n][..i] == steps[..i];
    assert Caused(steps[i].env, Run(st, steps[..i]).st, steps[i].event, u, l);
  }

  lemma CauseThroughChange(st: Store, steps: seq<Step>, env: Env, st': Store, ev: Event, u: Uuid, l: Lease, l': Lease)
    requires HasCause(st, steps, u, l) && Warranted(env, st', ev, u, l, l') && l'.state == l.state
    ensures HasCause(st, steps, u, l')
  {
    hide Caused, Run, Warranted;
    var i :| 0 <= i < |steps| && Caused(steps[i].env, Run(st, steps[..i]).st, steps[i].event, u, l);
    CauseStays(steps[i].env, Run(st, steps[..i]).st, steps[i].event, env, st', ev, u, l, l');
  }

  lemma LastIsCause(st: Store, steps: seq<Step>, u: Uuid, l: Lease)
    requires steps != []
    requires var n := |steps| - 1; Caused(steps[n].env, Run(st, steps[..n]).st, steps[n].event, u, l)
    ensures HasCause(st, steps, u, l)
  {
    hide Caused, Run;
  }

  lemma WarrantFor(env: Env, st: Store, ev: Event, leases': map<Uuid, Lease>, u: Uuid)
    requires AllWarranted(env, st, ev, leases')
    ensures u in st.leases ==> u in leases' && (leases'[u] == st.leases[u] || Warranted(env, st, ev, u, st.leases[u], leases'[u]))
    ensures u in leases' && u !in st.leases ==> Ordered(env, st, ev, leases'[u])
  {
    hide Warranted, Ordered;
  }

  /** Every state has a cause: a lease that is in a state it was not in at the start was brought
      there by an event of the run whose sender may do so, at the time the lease records; it is
      active only if its provider or the authority acknowledged it, and it expired only after
      being pending for longer than the timeout of that block. */
  lemma {:induction false} StateHasCause(st: Store, now: Time, steps: seq<Step>, u: Uuid)
    requires Sound(st, now, steps) && u in Run(st, steps).st.leases
    requires u in st.leases ==> st.leases[u].state != Run(st, steps).st.leases[u].state
    ensures HasCause(st, steps, u, Run(st, steps).st.leases[u])
    decreases |steps|
  {
    if steps == [] {
      hide Sound;
    } else {
      hide Sound, Run, AllWarranted, Warranted, Caused, HasCause, Ordered, Good, AllOk, Timely, FreshRun, Clocked, Handle;
      var n := |steps| - 1;
      RunIsWarranted(st, now, steps, n);
      assert steps[..n + 1] == steps;
      SoundLast(st, now, steps);
      var env, before, ev := steps[n].env, Run(st, steps[..n]).st, steps[n].event;
      var l' := Run(st, steps).st.leases[u];
      WarrantFor(env, before, ev, Run(st, steps).st.leases, u);
      if u !in before.leases {
        OrderedIsCause(env, before, ev, u, l');
        LastIsCause(st, steps, u, l');
      } else if before.leases[u].state != l'.state {
        WarrantedIsCause(env, before, ev, u, before.leases[u], l');
        LastIsCause(st, steps, u, l');
      } else {
        StateHasCause(st, now, steps[..n], u);
        CauseEarlier(st, steps, u, before.leases[u]);
        if l' != before.leases[u] {
          CauseThroughChange(st, steps, env, before, ev, u, before.leases[u], l');
        }
      }
    }
  }

  /** No lease expires early: a lease that expired in the run was pending for longer than any number
      of seconds that the timeout never fell below. */
  lemma NoEarlyExpiry(st: Store, now: Time, steps: seq<Step>, u: Uuid, seconds: nat)
    requires Sound(st, now, steps) && u in Run(st, steps).st.leases && Run(st, steps).st.leases[u].state == Expired
    requires u in st.leases ==> st.leases[u].state != Expired
    requires forall i :: 0 <= i < |steps| ==> Run(st, steps[..i]).st.params.pendingTimeout >= seconds
    ensures var l := Run(st, steps).st.leases[u];
            l.expiredAt.Some? && l.expiredAt.value - l.createdAt > seconds * 1_000_000_000
  {
    hide Sound, Run, ActsFor;
    StateHasCause(st, now, steps, u);
    var l := Run(st, steps).st.leases[u];
    var i :| 0 <= i < |steps| && Caused(steps[i].env, Run(st, steps[..i]).st, steps[i].event, u, l);
    assert Run(st, steps[..i]).st.params.pendingTimeout >= seconds;
  }

  lemma {:induction false} FixedParamsStay(st: Store, steps: seq<Step>)
    requires Good(st) && FreshRun(st, steps) && ParamsFixed(steps)
    ensures Run(st, steps).st.params == st.params
    decreases |steps|
  {
    hide Good, Deliver, Handle, NextUuid;
    if steps != [] {
      var n := |steps| - 1;
      FixedParamsStay(st, steps[..n]);
      RunKeepsGood(st, steps[..n]);
      DeliverKeepsParams(steps[n].env, Run(st, steps[..n]).st, steps[n].event);
    }
  }

  lemma {:induction false} SoundPrefix(st: Store, now: Time, steps: seq<Step>, i: nat)
    requires Sound(st, now, steps) && i <= |steps|
    ensures Sound(st, now, steps[..i])
    decreases |steps|
  {
    hide Sound;
    if i < |steps| {
      SoundLast(st, now, steps);
      SoundPrefix(st, now, steps[..|steps| - 1], i);
      assert steps[..|steps| - 1][..i] == steps[..i];
    } else {
      assert steps[..i] == steps;
    }
  }

  /** With fixed parameters: never before the timeout. */
  lemma NoExpiryBeforeTimeout(st: Store, now: Time, steps: seq<Step>, u: Uuid)
    requires Sound(st, now, steps) && ParamsFixed(steps) && u in Run(st, steps).st.leases && Run(st, steps).st.leases[u].state == Expired
    requires u in st.leases ==> st.leases[u].state != Expired
    ensures var l := Run(st, steps).st.leases[u];
            l.expiredAt.Some? && l.expiredAt.value - l.createdAt > st.params.pendingTimeout * 1_000_000_000
  {
    hide Run, Good, AllOk, Timely, FreshRun, Clocked, CatalogOk;
    forall i | 0 <= i < |steps| ensures Run(st, steps[..i]).st.params.pendingTimeout >= st.params.pendingTimeout {
      SoundPrefix(st, now, steps, i);
      FixedParamsStay(st, steps[..i]);
    }
    NoEarlyExpiry(st, now, steps, u, st.params.pendingTimeout);
  }

  lemma CreationQuotes(env: Env, st: Store, ev: Event)
    requires Good(st) && AllOk(st.leases) && Timely(st.leases, env.now) && Creates(ev) && Handle(env, st, ev).Ok?
    ensures var u, st' := NextUuid(env, st), Handle(env, st, ev).value.st;
            u in st'.leases && Quoted(env.catalog, st'.leases[u].providerUuid, ev.inputs, st'.leases[u].items)
  {
    hide Good, AllOk, Timely, Handle, Quoted, UuidV7.Generate;
    HandleDoes(env, st, ev);
    assert Created(env, st, ev.tenant, ev.inputs, ev.metaHash, Handle(env, st, ev).value.st);
  }

  /** A lease made in a run is charged the catalog's prices of its creation for life. */
  lemma PriceHoldsForLife(env: Env, st: Store, ev: Event, steps: seq<Step>)
    requires Good(st) && AllOk(st.leases) && Timely(st.leases, env.now) && Creates(ev) && Handle(env, st, ev).Ok? && NextUuid(env, st) !in st.leases
    requires Sound(Deliver(env, st, ev).st, env.now, steps)
    ensures var u, st' := NextUuid(env, st), Run(Deliver(env, st, ev).st, steps).st;
            u in st'.leases && PricedFrom(env.catalog, ev.inputs, st'.leases[u].items)
  {
    hide Good, AllOk, Timely, Handle, Run, FreshRun, Clocked, CatalogOk, Quoted, PricedFrom, UuidV7.Generate, Persists, Created;
    var st1, u := Deliver(env, st, ev).st, NextUuid(env, st);
    CreationQuotes(env, st, ev);
    RunPersists(st1, env.now, steps);
    QuotedIsPriced(env.catalog, st1.leases[u].providerUuid, ev.inputs, st1.leases[u].items);
    PricesAreLocked(env.catalog, ev.inputs, st1.leases[u], Run(st1, steps).st.leases[u]);
  }
}
