/** Guarantees to tenants and providers: admission never overbooks, live leases stay bounded,
    and the withdrawable query tells what a withdrawal pays. */
module Guarantees {
  import opened Coins
  import opened Types
  import opened Reservations
  import opened Accrual
  import opened Sums
  import opened DomainIndex
  import opened Ledger
  import opened Invariants
  import opened Reachable
  import opened Payments
  import opened Names
  import UuidV7

  // ---------------------------------------------------------------- admission

  lemma AdmissionCovers(env: Env, st: Store, tenant: Address, inputs: seq<LeaseItemInput>, metaHash: seq<int>)
    requires CreateLease(env, st, tenant, inputs, metaHash).Ok?
    ensures PriceItems(env.catalog, inputs).Ok? && tenant in st.accounts
    ensures var rates := Rates(PriceItems(env.catalog, inputs).value.items);
            Covers(Free(st, tenant, rates.Keys), Scale(rates, st.params.minLeaseDuration))
  {
    hide CheckLeaseItems, Place, Scale, Rates, PriceItems, Covers, Free, NewLease, Reserve;
  }

  lemma AdmissionCheck(env: Env, st: Store, tenant: Address, inputs: seq<LeaseItemInput>, metaHash: seq<int>, d: string)
    requires CreateLease(env, st, tenant, inputs, metaHash).Ok?
    ensures PriceItems(env.catalog, inputs).Ok? && tenant in st.accounts
    ensures var items := PriceItems(env.catalog, inputs).value.items;
            Rate(items, d) > 0 && st.params.minLeaseDuration > 0 ==>
              Holding(st.bank, Credit(tenant), d) >=
              AmountOf(st.accounts[tenant].reservedAmounts, d) + AmountOf(Scale(Rates(items), st.params.minLeaseDuration), d)
  {
    AdmissionCovers(env, st, tenant, inputs, metaHash);
    hide CreateLease, Scale, PriceItems, Rate;
    var items := PriceItems(env.catalog, inputs).value.items;
    var reservation := Scale(Rates(items), st.params.minLeaseDuration);
    ScaleAmount(Rates(items), st.params.minLeaseDuration, d);
    if Rate(items, d) > 0 && st.params.minLeaseDuration > 0 {
      PositiveProduct(Rate(items, d), st.params.minLeaseDuration);
      assert d in reservation;
      assert d in Rates(items);
    }
  }

  lemma PositiveProduct(a: nat, b: nat)
    requires a > 0 && b > 0
    ensures a * b > 0
  {
  }

  /** Right after a creation the tenant's balance covers the reservations of all its live
      leases, the new one included, in every denomination the new lease uses. */
  lemma AdmissionNeverOverbooks(env: Env, st: Store, tenant: Address, inputs: seq<LeaseItemInput>, metaHash: seq<int>, d: string)
    requires Good(st) && ReservedExactly(st) && NextUuid(env, st) !in st.leases && CreateLease(env, st, tenant, inputs, metaHash).Ok?
    requires PriceItems(env.catalog, inputs).Ok? ==> Rate(PriceItems(env.catalog, inputs).value.items, d) > 0
    ensures var st' := CreateLease(env, st, tenant, inputs, metaHash).value.st;
            Holding(st'.bank, Credit(tenant), d) >= Sum(st'.leases, ReservedOf(tenant, d, st'.params.minLeaseDuration))
  {
    AdmissionCheck(env, st, tenant, inputs, metaHash, d);
    var l := CreateKeeps(env, st, tenant, inputs, metaHash);
    hide CreateLease, Indexed, Reserves, PriceItems, Rate, Reservation, UuidV7.Generate, Holding, Sum, Scale, Rates;
    var min := st.params.minLeaseDuration;
    SumUpdate(st.leases, ReservedOf(tenant, d, min), l.uuid, l);
    ReservedIs(st, tenant, d);
    NewReservation(l, min);
    assert ReservedOf(tenant, d, min)(l) == AmountOf(Reservation(l, min), d);
  }

  lemma ReservedIs(st: Store, t: Address, d: string)
    requires ReservedExactly(st) && t in st.accounts
    ensures AmountOf(st.accounts[t].reservedAmounts, d) == Sum(st.leases, ReservedOf(t, d, st.params.minLeaseDuration))
  {
  }

  lemma NewReservation(l: Lease, min: nat)
    requires l.minLeaseDurationAtCreation == min
    ensures Reservation(l, min) == Scale(Rates(l.items), min)
  {
    hide Scale, Rates;
  }

  // ---------------------------------------------------------------- bound on live leases

  function LiveOf(t: Address): Lease -> nat {
    (l: Lease) => if l.tenant == t && Live(l) then 1 else 0
  }

  ghost function LiveCount(leases: map<Uuid, Lease>, t: Address): nat { Sum(leases, LiveOf(t)) }

  /** No tenant has more live leases than the two limits allow together. */
  ghost predicate Bounded(st: Store) {
    forall t :: LiveCount(st.leases, t) <= st.params.maxLeasesPerTenant + st.params.maxPendingLeasesPerTenant - 1
  }

  lemma EvolvedIsNoLarger(leases: map<Uuid, Lease>, us: seq<Uuid>, leases': map<Uuid, Lease>, t: Address)
    requires OnlyEvolved(leases, us, leases')
    ensures LiveCount(leases', t) <= LiveCount(leases, t)
  {
    SumPointwise(leases, leases', LiveOf(t));
  }

  lemma RelabelledIsNoLarger(leases: map<Uuid, Lease>, u: Uuid, service: string, domain: string, leases': map<Uuid, Lease>, t: Address)
    requires Relabelled(leases, u, service, domain, leases')
    ensures LiveCount(leases', t) <= LiveCount(leases, t)
  {
    SumPointwise(leases, leases', LiveOf(t));
  }

  lemma LiveIsActivePlusPending(st: Store, t: Address)
    requires Indexed(st) && t in st.accounts
    ensures LiveCount(st.leases, t) == st.accounts[t].activeLeaseCount + st.accounts[t].pendingLeaseCount
  {
    hide Exact, SkuExact, Keyed, Sheltered, Sum;
    SumPlus(st.leases, LiveOf(t), ActiveOf(t), PendingOf(t));
  }

  lemma CreateStaysBounded(env: Env, st: Store, tenant: Address, inputs: seq<LeaseItemInput>, metaHash: seq<int>)
    requires Good(st) && Bounded(st) && CreateLease(env, st, tenant, inputs, metaHash).Ok? && NextUuid(env, st) !in st.leases
    ensures Bounded(CreateLease(env, st, tenant, inputs, metaHash).value.st)
    ensures CreateLease(env, st, tenant, inputs, metaHash).value.st.params == st.params
  {
    hide CreateLease, Indexed, ReservedExactly, NoLegacy, UuidV7.Generate, PriceItems, LiveCount;
    AdmissionLimits(env, st, tenant, inputs, metaHash);
    var l := CreateKeeps(env, st, tenant, inputs, metaHash);
    LiveIsActivePlusPending(st, tenant);
    var st' := CreateLease(env, st, tenant, inputs, metaHash).value.st;
    forall t
      ensures LiveCount(st'.leases, t) <= st'.params.maxLeasesPerTenant + st'.params.maxPendingLeasesPerTenant - 1
    {
      LiveAfterWrite(st.leases, l, t);
      assert LiveCount(st.leases, t) <= st.params.maxLeasesPerTenant + st.params.maxPendingLeasesPerTenant - 1;
    }
  }

  lemma LiveAfterWrite(leases: map<Uuid, Lease>, l: Lease, t: Address)
    requires l.uuid !in leases
    ensures LiveCount(leases[l.uuid := l], t) <= LiveCount(leases, t) + (if t == l.tenant then 1 else 0)
  {
    SumUpdate(leases, LiveOf(t), l.uuid, l);
  }

  lemma AdmissionLimits(env: Env, st: Store, tenant: Address, inputs: seq<LeaseItemInput>, metaHash: seq<int>)
    requires CreateLease(env, st, tenant, inputs, metaHash).Ok?
    ensures tenant in st.accounts
    ensures st.accounts[tenant].activeLeaseCount < st.params.maxLeasesPerTenant
    ensures st.accounts[tenant].pendingLeaseCount < st.params.maxPendingLeasesPerTenant
  {
    hide CheckLeaseItems, Place, Scale, Rates, UuidV7.Generate, PriceItems, Free;
  }

  lemma StaysBounded(env: Env, st: Store, ev: Event)
    requires Good(st) && Bounded(st) && !ev.SetParams? && (Creates(ev) && Handle(env, st, ev).Ok? ==> NextUuid(env, st) !in st.leases)
    ensures Bounded(Deliver(env, st, ev).st) && Deliver(env, st, ev).st.params == st.params
  {
    hide Indexed, ReservedExactly, NoLegacy, FundCredit, SetItemCustomDomain, UuidV7.Generate, CreateLease, CreateLeaseForTenant, EndBlock, WithdrawAll, WithdrawLeases, CloseLease, CancelLease, RejectLease, AcknowledgeLease, Batch, BatchTargets, OnlyEvolved, Relabelled, LiveCount;
    if Handle(env, st, ev).Ok? {
      var st' := Handle(env, st, ev).value.st;
      if IsBatch(ev) {
        HandleIsBatch(env, st, ev);
        BatchIsKept(BatchOp(ev), env, st, BatchTargets(env, st, ev));
        forall t ensures LiveCount(st'.leases, t) <= LiveCount(st.leases, t) {
          EvolvedIsNoLarger(st.leases, BatchTargets(env, st, ev), st'.leases, t);
        }
      } else if Creates(ev) {
        CreationIsCreateLease(env, st, ev);
        CreateStaysBounded(env, st, ev.tenant, ev.inputs, ev.metaHash);
      } else if ev.Fund? {
        FundKeeps(st, ev.sender, ev.tenant, ev.amount);
      } else if ev.SetDomain? {
        SetDomainKeeps(env, st, ev.sender, ev.uuid, ev.service, ev.domain);
        if st' != st {
          forall t ensures LiveCount(st'.leases, t) <= LiveCount(st.leases, t) {
            RelabelledIsNoLarger(st.leases, ev.uuid, ev.service, Normalize(ev.domain), st'.leases, t);
          }
        }
      }
    }
  }

  function LimitSum(p: Params): nat { p.maxLeasesPerTenant + p.maxPendingLeasesPerTenant }

  /** An accepted update does not lower the two limits together. */
  predicate KeepsLimits(env: Env, st: Store, ev: Event) {
    ev.SetParams? && Handle(env, st, ev).Ok? ==> LimitSum(ev.params) >= LimitSum(st.params)
  }

  lemma UpdateStaysBounded(env: Env, st: Store, ev: Event)
    requires Bounded(st) && ev.SetParams? && Handle(env, st, ev).Ok? && KeepsLimits(env, st, ev)
    ensures Bounded(Deliver(env, st, ev).st)
  {
    hide ValidParams, LiveCount;
    assert Handle(env, st, ev) == UpdateParams(env, st, ev.sender, ev.params);
    forall t ensures LiveCount(st.leases, t) <= LimitSum(ev.params) - 1 {
      assert LiveCount(st.leases, t) <= LimitSum(st.params) - 1;
    }
  }

  /** No update of the run lowers the two limits together. */
  ghost predicate LimitsNeverFall(st: Store, steps: seq<Step>) {
    steps == [] ||
    var n := |steps| - 1;
    LimitsNeverFall(st, steps[..n]) && KeepsLimits(steps[n].env, Run(st, steps[..n]).st, steps[n].event)
  }

  /** From a bounded store (an empty one, say) the bound holds after every run that never lowers
      the two limits together, although acknowledgement checks no limit. */
  lemma {:induction false} RunStaysBounded(st: Store, steps: seq<Step>)
    requires Good(st) && FreshRun(st, steps) && Bounded(st) && LimitsNeverFall(st, steps)
    ensures Bounded(Run(st, steps).st)
    decreases |steps|
  {
    hide Good, UuidV7.Generate, Bounded, Deliver;
    if steps != [] {
      var n := |steps| - 1;
      RunStaysBounded(st, steps[..n]);
      RunKeepsGood(st, steps[..n]);
      var env, before, ev := steps[n].env, Run(st, steps[..n]).st, steps[n].event;
      if Handle(env, before, ev).Ok? {
        if ev.SetParams? {
          UpdateStaysBounded(env, before, ev);
        } else {
          StaysBounded(env, before, ev);
        }
      } else {
        RefusalChangesNothing(env, before, ev);
      }
    }
  }

  lemma RefusalChangesNothing(env: Env, st: Store, ev: Event)
    requires Handle(env, st, ev).Err?
    ensures Deliver(env, st, ev) == Out(st, [])
  {
    hide Handle;
  }

  lemma EmptyIsBounded(params: Params, bank: Bank)
    requires params.maxLeasesPerTenant > 0 && params.maxPendingLeasesPerTenant > 0
    ensures Bounded(EmptyStore(params, bank))
  {
  }

  // ---------------------------------------------------------------- the query and the transaction

  /** A successful single-lease withdrawal pays what the query reported, exactly when the gap is
      within the accrual limit or there is no credit to take. */
  lemma QueryAgreesWithWithdrawal(env: Env, st: Store, sender: Address, u: Uuid)
    requires WithdrawLeases(env, st, sender, [u]).Ok?
    ensures u in st.leases
    ensures var l := st.leases[u];
            var paid := TotalOf(WithdrawLeases(env, st, sender, [u]).value.receipts);
            (paid == Withdrawable(st.bank, l, env.now) <==>
             WithinLimit(l, SettleTime(l, env.now)) || Available(st.bank, l) == NO_COINS)
  {
    hide WithdrawLeases, WithdrawOne, Settle, Withdrawable, WithinLimit, Available, TotalOf, DueAt;
    var l, out := SingleWithdrawal(env, st, sender, u);
    var silent, s := WithdrawalReceipt(env, st, l, out);
    SettleTransfers(st.bank, env.catalog, l, SettleTime(l, env.now), silent);
    TotalOfOne(out.receipts[0]);
    assert out.receipts == [out.receipts[0]];
    WithdrawableIs(st.bank, l, env.now);
    MeetSelf(Available(st.bank, l));
  }

  lemma WithdrawableIs(bank: Bank, l: Lease, now: Time)
    ensures var at := SettleTime(l, now);
            Withdrawable(bank, l, now) == if WithinLimit(l, at) then Meet(DueAt(l, at), Available(bank, l)) else NO_COINS
  {
    hide Accrued, Available, Overflows;
    SaturationIsHarmless(SettleTime(l, now), l.lastSettledAt);
    MeetNothing(Available(bank, l));
  }

  lemma MeetSelf(c: Coins)
    ensures Meet(c, c) == c
  {
    CoinsEqual(Meet(c, c), c);
  }

  lemma TotalOfOne(r: Receipt)
    ensures TotalOf([r]) == r.transfer
  {
    assert [r][..0] == [];
    AddNothing(r.transfer);
  }

  lemma SingleWithdrawal(env: Env, st: Store, sender: Address, u: Uuid) returns (l: Lease, out: Out)
    requires WithdrawLeases(env, st, sender, [u]).Ok?
    ensures u in st.leases && l == st.leases[u] && WithdrawOne(st, env, l) == Ok(out)
    ensures WithdrawLeases(env, st, sender, [u]).value.receipts == out.receipts && out.receipts != []
  {
    hide WithdrawOne, CheckBatch, WithdrawProvider, Batch;
    BatchOfOne(OpWithdraw, env, st, u);
    l := st.leases[u];
    out := WithdrawOne(st, env, l).value;
  }

  lemma BatchOfOne(op: Op, env: Env, st: Store, u: Uuid)
    ensures Batch(op, env, st, [u]) == One(op, env, st, u)
  {
    hide One;
    assert [u][..0] == [];
    assert Batch(op, env, st, []) == Ok(Out(st, []));
    if One(op, env, st, u).Ok? {
      var rs := One(op, env, st, u).value.receipts;
      assert [] + rs == rs;
    }
  }

  lemma WithdrawalReceipt(env: Env, st: Store, l: Lease, out: Out) returns (silent: bool, s: Settlement)
    requires WithdrawOne(st, env, l) == Ok(out) && out.receipts != []
    ensures Settle(st.bank, env.catalog, l, SettleTime(l, env.now), silent) == Ok(s)
    ensures |out.receipts| == 1 && out.receipts[0].transfer == s.transfer
  {
    hide Settle, Move, SetLease, Exhausted, Release;
    silent := ShouldAutoClose(st.bank, l, env.now).value;
    s := Settle(st.bank, env.catalog, l, SettleTime(l, env.now), silent).value;
  }
}
