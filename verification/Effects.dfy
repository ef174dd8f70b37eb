/** What an accepted event does, field by field, and nothing else.  Leases, accounts present, bank,
    parameters and sequence number determine the store (`StoreIsDetermined`), so these are what the
    lemmas speak of. */
module Effects {
  import opened Coins
  import opened Types
  import opened Reservations
  import opened Accrual
  import opened Sums
  import opened Text
  import opened DomainIndex
  import opened Names
  import opened Ledger
  import opened Invariants
  import opened Reachable
  import opened Lifetime
  import opened Payments
  import opened Structure
  import opened Success
  import opened Overrun
  import opened Pricing
  import opened Expiry
  import opened DomainEdits
  import opened Access
  import Genesis
  import Batches
  import UuidV7

  // ---------------------------------------------------------------- what determines a store

  lemma AccountIsDetermined(a: Store, b: Store, t: Address)
    requires Consistent(a) && Consistent(b) && a.leases == b.leases && a.params == b.params
    requires t in a.accounts && t in b.accounts
    ensures a.accounts[t] == b.accounts[t]
  {
    hide Exact, SkuExact, Sheltered, CreditIndexOf, LeasesFiled, Sum;
    CoinsEqual(a.accounts[t].reservedAmounts, b.accounts[t].reservedAmounts);
  }

  /** The leases, the accounts present, bank, parameters and sequence number determine a consistent
      store: counters, reservations and all three indexes follow from them. */
  lemma StoreIsDetermined(a: Store, b: Store)
    requires Consistent(a) && Consistent(b)
    requires a.leases == b.leases && a.params == b.params && a.sequence == b.sequence && a.bank == b.bank
    requires a.accounts.Keys == b.accounts.Keys
    ensures a == b
  {
    assert a.accounts == b.accounts by {
      hide Consistent;
      forall t | t in a.accounts ensures a.accounts[t] == b.accounts[t] {
        AccountIsDetermined(a, b, t);
      }
    }
    hide Exact, SkuExact, Sheltered, Counted, CreditIndexOf, LeasesFiled, AccountsFiled, ReservedExactly;
    ExactIsUnique(a.domainIndex, b.domainIndex, a.leases);
    Genesis.SkuIndexIsUnique(a.skuIndex, b.skuIndex, a.leases);
  }

  // ---------------------------------------------------------------- funding

  ghost predicate Paid(bank: Bank, sender: Address, to: Address, amount: Coin, bank': Bank) {
    forall a, d :: Holding(bank', a, d) == Holding(bank, a, d)
                   + (if a == to && d == amount.denom then amount.amount else 0)
                   - (if a == sender && d == amount.denom then amount.amount else 0)
  }

  lemma SendPays(bank: Bank, sender: Address, to: Address, amount: Coin)
    requires Send(bank, sender, to, Single(amount)).Ok?
    ensures Paid(bank, sender, to, amount, Send(bank, sender, to, Single(amount)).value)
  {
    hide Send, Holding;
    var bank' := Send(bank, sender, to, Single(amount)).value;
    forall a, d
      ensures Holding(bank', a, d) == Holding(bank, a, d)
              + (if a == to && d == amount.denom then amount.amount else 0)
              - (if a == sender && d == amount.denom then amount.amount else 0)
    {
      SendMoves(bank, sender, to, Single(amount), a, d);
    }
  }

  /** The coin left the sender for the tenant's credit address, and the tenant has an account: the
      old one, or one without leases and reservations. */
  ghost predicate Funded(st: Store, sender: Address, tenant: Address, amount: Coin, st': Store) {
    && Paid(st.bank, sender, Credit(tenant), amount, st'.bank)
    && st'.accounts.Keys == st.accounts.Keys + {tenant}
    && (forall t :: t in st.accounts ==> st'.accounts[t] == st.accounts[t])
    && (tenant !in st.accounts ==> st'.accounts[tenant] == CreditAccount(tenant, Credit(tenant), 0, 0, NO_COINS))
    && st'.leases == st.leases && st'.params == st.params && st'.sequence == st.sequence
    && st'.domainIndex == st.domainIndex && st'.skuIndex == st.skuIndex
  }

  lemma FundWrites(st: Store, sender: Address, tenant: Address, amount: Coin)
    requires FundCredit(st, sender, tenant, amount).Ok?
    ensures Send(st.bank, sender, Credit(tenant), Single(amount)).Ok?
    ensures var bank := Send(st.bank, sender, Credit(tenant), Single(amount)).value;
            var ca := if tenant in st.accounts then st.accounts[tenant] else CreditAccount(tenant, Credit(tenant), 0, 0, NO_COINS);
            FundCredit(st, sender, tenant, amount).value.st == SetAccount(st.(bank := bank), ca)
  {
    hide Send, Single, ValidDenom, SetAccount;
  }

  lemma AccountAdded(accounts: map<Address, CreditAccount>, t: Address, ca: CreditAccount)
    requires t in accounts ==> ca == accounts[t]
    ensures accounts[t := ca].Keys == accounts.Keys + {t} && accounts[t := ca][t] == ca
    ensures forall x :: x in accounts ==> accounts[t := ca][x] == accounts[x]
  {
  }

  lemma FundDoes(st: Store, sender: Address, tenant: Address, amount: Coin)
    requires AccountsFiled(st.accounts) && FundCredit(st, sender, tenant, amount).Ok?
    ensures Funded(st, sender, tenant, amount, FundCredit(st, sender, tenant, amount).value.st)
  {
    assert tenant in st.accounts ==> st.accounts[tenant].tenant == tenant;
    hide AccountsFiled, Send, Single, FundCredit, Paid;
    FundWrites(st, sender, tenant, amount);
    SendPays(st.bank, sender, Credit(tenant), amount);
    var st' := FundCredit(st, sender, tenant, amount).value.st;
    assert tenant in st'.accounts && st'.accounts == st.accounts[tenant := st'.accounts[tenant]];
    AccountAdded(st.accounts, tenant, st'.accounts[tenant]);
  }

  // ---------------------------------------------------------------- creating

  /** A pending lease as ordered, at the catalog's prices, that starts now. */
  predicate IsNewLease(env: Env, st: Store, tenant: Address, inputs: seq<LeaseItemInput>, metaHash: seq<int>, l: Lease) {
    && l == Lease(l.uuid, tenant, l.providerUuid, l.items, Pending, env.now, None, env.now, None, None, "", None, "", metaHash,
                  st.params.minLeaseDuration)
    && Quoted(env.catalog, l.providerUuid, inputs, l.items)
  }

  ghost predicate Created(env: Env, st: Store, tenant: Address, inputs: seq<LeaseItemInput>, metaHash: seq<int>, st': Store) {
    var u := UuidV7.Generate(env.now, env.entropy, st.sequence);
    && u in st'.leases && st'.leases == st.leases[u := st'.leases[u]] && st'.leases[u].uuid == u
    && IsNewLease(env, st, tenant, inputs, metaHash, st'.leases[u])
    && st'.accounts.Keys == st.accounts.Keys && st'.bank == st.bank && st'.params == st.params && st'.sequence == st.sequence + 1
  }

  lemma NewLeaseIs(env: Env, st: Store, tenant: Address, inputs: seq<LeaseItemInput>, metaHash: seq<int>)
    requires PriceItems(env.catalog, inputs).Ok?
    ensures var l := NewLease(env, st, tenant, PriceItems(env.catalog, inputs).value, metaHash);
            IsNewLease(env, st, tenant, inputs, metaHash, l) && l.uuid == UuidV7.Generate(env.now, env.entropy, st.sequence)
  {
    hide PriceItems, Quoted, UuidV7.Generate;
    QuoteMatches(env.catalog, inputs);
  }

  lemma FiledAccount(st: Store, tenant: Address)
    requires Indexed(st)
    ensures Exact(st.domainIndex, st.leases) && st.creditIndex == CreditIndexOf(st.accounts)
    ensures tenant in st.accounts ==> st.accounts[tenant].tenant == tenant
  {
    hide Exact, SkuExact, Sheltered, Counted, LeasesFiled, CreditIndexOf;
  }

  lemma CreateDoes(env: Env, st: Store, tenant: Address, inputs: seq<LeaseItemInput>, metaHash: seq<int>)
    requires Indexed(st) && CreateLease(env, st, tenant, inputs, metaHash).Ok?
    ensures Created(env, st, tenant, inputs, metaHash, CreateLease(env, st, tenant, inputs, metaHash).value.st)
  {
    hide Indexed, Exact, CreditIndexOf, CreateLease, Place, PriceItems, Rates, Scale, UuidV7.Generate, ByService, IsNewLease, NewLease;
    FiledAccount(st, tenant);
    var l := CreateWrites(env, st, tenant, inputs, metaHash);
    NewLeaseIs(env, st, tenant, inputs, metaHash);
    PlaceEffect(st, l, Reserve(st.accounts[tenant], Scale(Rates(l.items), st.params.minLeaseDuration)));
  }

  // ---------------------------------------------------------------- answering

  /** What an answer makes of a pending lease. */
  function Answered(op: Op, l: Lease, now: Time): Lease {
    match op
    case OpAcknowledge => l.(state := Active, acknowledgedAt := Some(now), lastSettledAt := now)
    case OpReject(reason) => l.(state := Rejected, rejectedAt := Some(now), rejectionReason := reason)
    case _ => l
  }

  predicate AllAnswered(op: Op, leases: map<Uuid, Lease>, us: seq<Uuid>, now: Time, leases': map<Uuid, Lease>) {
    && leases'.Keys == leases.Keys
    && forall u :: u in leases ==> leases'[u] == if u in us then Answered(op, leases[u], now) else leases[u]
  }

  lemma OneAnswers(op: Op, env: Env, st: Store, u: Uuid)
    requires Indexed(st) && (op.OpAcknowledge? || op.OpReject?) && u in st.leases && st.leases[u].state == Pending
    ensures One(op, env, st, u).Ok?
    ensures One(op, env, st, u).value.st.leases == st.leases[u := Answered(op, st.leases[u], env.now)]
    ensures One(op, env, st, u).value.receipts == []
  {
    hide Indexed, Kept, ExpireOne, AcknowledgeOne, RejectOne;
    FiledUnderKey(st, u);
    var reason := if op.OpReject? then op.reason else "";
    PendingStepIsKept(st, env.now, st.leases[u], reason);
    PendingIsAccounted(st, env.now, st.leases[u], reason);
  }

  /** Acknowledging and rejecting change every listed lease and no other, and move no money. */
  lemma {:induction false} BatchAnswers(op: Op, env: Env, st: Store, us: seq<Uuid>)
    requires Indexed(st) && (op.OpAcknowledge? || op.OpReject?) && Distinct(us) && AllIn(st.leases, us, Pending)
    ensures Batch(op, env, st, us).Ok?
    ensures AllAnswered(op, st.leases, us, env.now, Batch(op, env, st, us).value.st.leases)
    ensures Batch(op, env, st, us).value.receipts == []
    decreases |us|
  {
    hide Indexed, One, OnlyEvolved, ReservedExactly, Answered;
    if us != [] {
      var n := |us| - 1;
      LastOf(us);
      BatchAnswers(op, env, st, us[..n]);
      BatchIsKept(op, env, st, us[..n]);
      OneAnswers(op, env, Batch(op, env, st, us[..n]).value.st, us[n]);
    }
  }

  // ---------------------------------------------------------------- settling

  function Ended(l: Lease, now: Time, reason: string): Lease {
    l.(state := Closed, closedAt := Some(now), lastSettledAt := now, closureReason := reason)
  }

  /** What a settling step makes of a lease, given whether its credit is used up. */
  function Settled(op: Op, usedUp: bool, l: Lease, now: Time): Lease {
    if op.OpClose? then Ended(l, now, if usedUp then "credit exhausted" else op.reason)
    else if l.state == Active && usedUp then Ended(l, now, "credit exhausted")
    else if l.state == Active && now - l.lastSettledAt >= 1_000_000_000 then l.(lastSettledAt := now)
    else l
  }

  lemma CloseWrites(st: Store, env: Env, l: Lease, reason: string)
    requires Indexed(st) && l.uuid in st.leases && st.leases[l.uuid] == l && l.lastSettledAt <= env.now && CloseOne(st, env, l, reason).Ok?
    ensures l.state == Active
    ensures CloseOne(st, env, l, reason).value.st.leases ==
            st.leases[l.uuid := Settled(OpClose(reason), Exhausted(st.bank, l, env.now), l, env.now)]
  {
    hide Indexed, Finish, Exhausted, Kept;
    SaturationIsHarmless(env.now, l.lastSettledAt);
    var exhausted := Exhausted(st.bank, l, env.now);
    FinishIsKept(st, env, l, exhausted, if exhausted then CREDIT_EXHAUSTED else reason, true);
  }

  lemma Unmoved(leases: map<Uuid, Lease>, u: Uuid)
    requires u in leases
    ensures leases == leases[u := leases[u]]
  {
  }

  lemma WithdrawCases(st: Store, env: Env, l: Lease)
    requires l.state == Active && l.lastSettledAt <= env.now && WithdrawOne(st, env, l).Ok?
    ensures var exhausted := Exhausted(st.bank, l, env.now);
            var s := Settle(st.bank, env.catalog, l, env.now, false);
            && (exhausted ==> WithdrawOne(st, env, l) == Finish(st, env, l, true, CREDIT_EXHAUSTED, false))
            && (!exhausted ==>
                  && s.Ok?
                  && (s.value.accrued == NO_COINS ==> WithdrawOne(st, env, l).value.st == st)
                  && (s.value.accrued != NO_COINS ==>
                        var w := SetLease(st.(bank := s.value.bank), l.(lastSettledAt := env.now));
                        w.Ok? && WithdrawOne(st, env, l).value.st == w.value))
  {
    hide Finish, Exhausted, Settle, SetLease, MakeReceipt, ShouldAutoClose;
    OpenMeansNotExhausted(st.bank, l, env.now);
  }

  lemma OpenWithdrawWrites(st: Store, env: Env, l: Lease)
    requires Indexed(st) && l.uuid in st.leases && st.leases[l.uuid] == l && l.state == Active && l.lastSettledAt <= env.now && LeaseOk(l)
    requires WithdrawOne(st, env, l).Ok?
    ensures WithdrawOne(st, env, l).value.st.leases == st.leases[l.uuid := Settled(OpWithdraw, Exhausted(st.bank, l, env.now), l, env.now)]
  {
    hide Indexed, Finish, Exhausted, Kept, Settle, SetLease, LeaseOk, WithdrawOne;
    WithdrawCases(st, env, l);
    if Exhausted(st.bank, l, env.now) {
      FinishIsKept(st, env, l, true, CREDIT_EXHAUSTED, false);
    } else {
      var s := Settle(st.bank, env.catalog, l, env.now, false).value;
      OpenSettlement(st.bank, env.catalog, l, env.now, false);
      Unmoved(st.leases, l.uuid);
      if s.accrued != NO_COINS {
        SettledIsKept(st, s.bank, l, env.now);
      }
    }
  }

  lemma WithdrawWrites(st: Store, env: Env, l: Lease)
    requires Indexed(st) && l.uuid in st.leases && st.leases[l.uuid] == l && TimelyLease(l, env.now) && LeaseOk(l)
    requires WithdrawOne(st, env, l).Ok?
    ensures WithdrawOne(st, env, l).value.st.leases == st.leases[l.uuid := Settled(OpWithdraw, Exhausted(st.bank, l, env.now), l, env.now)]
  {
    SettledBefore(l, env.now);
    hide Indexed, Exhausted, TimelyLease, LeaseOk, WithdrawOne;
    if l.state != Active {
      Unmoved(st.leases, l.uuid);
      IdleIff(st, env, l);
    } else {
      OpenWithdrawWrites(st, env, l);
    }
  }

  /** An open lease settles in full, and something is due exactly after a whole second. */
  lemma OpenSettlement(bank: Bank, catalog: Catalog, l: Lease, now: Time, silent: bool)
    requires LeaseOk(l) && l.state == Active && l.lastSettledAt <= now && !Exhausted(bank, l, now) && Settle(bank, catalog, l, now, silent).Ok?
    ensures var s := Settle(bank, catalog, l, now, silent).value;
            && s.transfer == s.accrued && (s.accrued == NO_COINS <==> now - l.lastSettledAt < 1_000_000_000)
  {
    NotExhaustedMeans(bank, l, now);
    AccruedBySecond(l.items, now, l.lastSettledAt, "");
    HasItems(l);
    hide Settle, Exhausted, LeaseOk, DueAt;
    FullSettlement(bank, catalog, l, now, silent, "");
    DueWhenSecondsPassed(l, now);
  }

  lemma SweepCases(st: Store, env: Env, l: Lease)
    requires l.state == Active && l.lastSettledAt <= env.now && SweepOne(st, env, l).Ok?
    ensures var exhausted := Exhausted(st.bank, l, env.now);
            var s := Settle(st.bank, env.catalog, l, env.now, true);
            && (exhausted ==> SweepOne(st, env, l) == Finish(st, env, l, true, CREDIT_EXHAUSTED, false))
            && (!exhausted && env.now == l.lastSettledAt ==> SweepOne(st, env, l).value.st == st)
            && (!exhausted && env.now > l.lastSettledAt ==>
                  && s.Ok?
                  && (s.value.transfer == NO_COINS ==> SweepOne(st, env, l).value.st == st)
                  && (s.value.transfer != NO_COINS ==>
                        var w := SetLease(st.(bank := s.value.bank), l.(lastSettledAt := env.now));
                        w.Ok? && SweepOne(st, env, l).value.st == w.value))
  {
    hide Finish, Exhausted, Settle, SetLease, MakeReceipt, ShouldAutoClose;
    OpenMeansNotExhausted(st.bank, l, env.now);
  }

  lemma OpenSweepWrites(st: Store, env: Env, l: Lease)
    requires Indexed(st) && l.uuid in st.leases && st.leases[l.uuid] == l && l.state == Active && l.lastSettledAt <= env.now && LeaseOk(l)
    requires SweepOne(st, env, l).Ok?
    ensures SweepOne(st, env, l).value.st.leases == st.leases[l.uuid := Settled(OpSweep, Exhausted(st.bank, l, env.now), l, env.now)]
  {
    hide Indexed, Finish, Exhausted, Kept, Settle, SetLease, LeaseOk, SweepOne;
    SweepCases(st, env, l);
    if Exhausted(st.bank, l, env.now) {
      FinishIsKept(st, env, l, true, CREDIT_EXHAUSTED, false);
    } else {
      Unmoved(st.leases, l.uuid);
      if env.now > l.lastSettledAt {
        var s := Settle(st.bank, env.catalog, l, env.now, true).value;
        OpenSettlement(st.bank, env.catalog, l, env.now, true);
        if s.transfer != NO_COINS {
          SettledIsKept(st, s.bank, l, env.now);
        }
      }
    }
  }

  lemma SweepPassesOver(st: Store, env: Env, l: Lease)
    requires l.state != Active && SettleTime(l, env.now) == l.lastSettledAt
    ensures SweepOne(st, env, l) == Ok(Out(st, []))
  {
    hide Finish, Settle, SetLease, MakeReceipt, SettleTime;
  }

  lemma SweepWrites(st: Store, env: Env, l: Lease)
    requires Indexed(st) && l.uuid in st.leases && st.leases[l.uuid] == l && TimelyLease(l, env.now) && LeaseOk(l)
    requires SweepOne(st, env, l).Ok?
    ensures SweepOne(st, env, l).value.st.leases == st.leases[l.uuid := Settled(OpSweep, Exhausted(st.bank, l, env.now), l, env.now)]
  {
    SettledBefore(l, env.now);
    hide Indexed, Exhausted, TimelyLease, LeaseOk, SweepOne, SettleTime;
    if l.state != Active {
      Unmoved(st.leases, l.uuid);
      SweepPassesOver(st, env, l);
    } else {
      OpenSweepWrites(st, env, l);
    }
  }

  /** One settling step: the lease it leaves behind. */
  lemma StepWrites(op: Op, env: Env, st: Store, u: Uuid)
    requires Indexed(st) && Charges(op) && u in st.leases && TimelyLease(st.leases[u], env.now) && LeaseOk(st.leases[u])
    requires Strict(op, env, st, u).Ok?
    ensures Strict(op, env, st, u).value.st.leases ==
            st.leases[u := Settled(op, Exhausted(st.bank, st.leases[u], env.now), st.leases[u], env.now)]
    ensures op.OpClose? ==> st.leases[u].state == Active
  {
    FiledUnderKey(st, u);
    var l := st.leases[u];
    assert l.lastSettledAt <= env.now;
    hide Indexed, CloseOne, WithdrawOne, SweepOne, Exhausted, Settled, TimelyLease, LeaseOk;
    match op
    case OpClose(reason) => CloseWrites(st, env, l, reason);
    case OpWithdraw => WithdrawWrites(st, env, l);
    case OpSweep => SweepWrites(st, env, l);
  }

  /** The lease listed at `i` as its own step leaves it, the credit being used up or not once the
      leases listed before it have been charged. */
  function AtTurn(op: Op, bank: Bank, leases: map<Uuid, Lease>, us: seq<Uuid>, i: nat, now: Time): Lease
    requires i < |us| && us[i] in leases
  {
    Settled(op, Drained(bank, leases, us[..i], leases[us[i]], now), leases[us[i]], now)
  }

  /** Every listed lease is as its step leaves it, and every other as it was. */
  ghost predicate AllSettled(op: Op, bank: Bank, leases: map<Uuid, Lease>, us: seq<Uuid>, now: Time, leases': map<Uuid, Lease>) {
    && leases'.Keys == leases.Keys
    && (forall u :: u in leases && u !in us ==> leases'[u] == leases[u])
    && (forall i :: 0 <= i < |us| ==> us[i] in leases && leases'[us[i]] == AtTurn(op, bank, leases, us, i, now))
  }

  lemma SameTurn(op: Op, bank: Bank, leases: map<Uuid, Lease>, us: seq<Uuid>, i: nat, now: Time)
    requires i < |us| - 1 && us[i] in leases
    ensures us[..|us| - 1][i] == us[i] && AtTurn(op, bank, leases, us[..|us| - 1], i, now) == AtTurn(op, bank, leases, us, i, now)
  {
    hide Settled, Drained;
    assert us[..|us| - 1][..i] == us[..i];
  }

  lemma AllSettledNext(op: Op, bank: Bank, leases: map<Uuid, Lease>, us: seq<Uuid>, now: Time, before: map<Uuid, Lease>)
    requires us != [] && Distinct(us) && us[|us| - 1] in leases && AllSettled(op, bank, leases, us[..|us| - 1], now, before)
    ensures AllSettled(op, bank, leases, us, now, before[us[|us| - 1] := AtTurn(op, bank, leases, us, |us| - 1, now)])
  {
    hide AtTurn;
    var n := |us| - 1;
    var leases' := before[us[n] := AtTurn(op, bank, leases, us, n, now)];
    LastOf(us);
    forall i | 0 <= i < |us| ensures us[i] in leases && leases'[us[i]] == AtTurn(op, bank, leases, us, i, now) {
      if i < n {
        assert us[..n][i] == us[i] && us[i] != us[n];
        SameTurn(op, bank, leases, us, i, now);
      }
    }
  }

  lemma NoneSettled(op: Op, bank: Bank, leases: map<Uuid, Lease>, now: Time)
    ensures AllSettled(op, bank, leases, [], now, leases)
  {
    hide AtTurn;
  }

  /** Whether the credit is used up for a lease at its turn, from the store before the batch. */
  lemma TurnIsForeseen(op: Op, env: Env, st: Store, us: seq<Uuid>, l: Lease)
    requires Indexed(st) && Settles(op, env, st, us) && Batch(op, env, st, us).Ok? && l.lastSettledAt <= env.now && WithinLimit(l, env.now)
    ensures Exhausted(Batch(op, env, st, us).value.st.bank, l, env.now) <==> Drained(st.bank, st.leases, us, l, env.now)
  {
    hide Indexed, Settles, Batch, Exhausted, Drained, CreditAfter, WithinLimit, Holding;
    var bank' := Batch(op, env, st, us).value.st.bank;
    forall d ensures Holding(bank', Credit(l.tenant), d) == CreditAfter(st.bank, st.leases, us, l.tenant, d, env.now) {
      SettlesDraws(op, env, st, us, l.tenant, d);
    }
    DrainedIsExhausted(bank', st.bank, st.leases, us, l, env.now);
  }

  /** A step of the batch in terms of the store before the batch. */
  lemma SettledAtTurn(op: Op, env: Env, st: Store, us: seq<Uuid>)
    requires Indexed(st) && Timely(st.leases, env.now) && AllOk(st.leases) && us != [] && Settles(op, env, st, us)
    ensures var n := |us| - 1;
            && us[n] in st.leases && Batch(op, env, st, us[..n]).Ok? && Batch(op, env, st, us).Ok?
            && Batch(op, env, st, us).value.st.leases ==
               Batch(op, env, st, us[..n]).value.st.leases[us[n] := AtTurn(op, st.bank, st.leases, us, n, env.now)]
  {
    var n := |us| - 1;
    assert Charges(op);
    hide Indexed, Timely, AllOk, Settles, Batch, Strict, Drained, Exhausted, Chargeable, OnlyEvolved, ReservedExactly, Settled, TimelyLease, LeaseOk, Distinct;
    LastStepSettles(op, env, st, us);
    SettlesPrefix(op, env, st, us);
    var l, before := st.leases[us[n]], Batch(op, env, st, us[..n]).value.st;
    BatchIsKept(op, env, st, us[..n]);
    TimelyAt(st.leases, us[n], env.now);
    OkAt(st.leases, us[n]);
    StepWrites(op, env, before, us[n]);
    if l.state == Active {
      ActiveIsWithin(env.catalog, l, env.now);
      TurnIsForeseen(op, env, st, us[..n], l);
    } else {
      NotActiveSettles(op, l, env.now);
    }
  }

  lemma ActiveIsWithin(catalog: Catalog, l: Lease, now: Time)
    requires l.state == Active && Chargeable(catalog, l, now) && TimelyLease(l, now)
    ensures WithinLimit(l, now) && l.lastSettledAt <= now
  {
    hide WithinLimit;
  }

  lemma NotActiveSettles(op: Op, l: Lease, now: Time)
    requires l.state != Active && !op.OpClose?
    ensures forall usedUp :: Settled(op, usedUp, l, now) == l
  {
  }

  /** Closings, withdrawals and sweeps of any length: what becomes of every lease, computed from the
      leases and balances before the batch. */
  lemma {:induction false} BatchSettles(op: Op, env: Env, st: Store, us: seq<Uuid>)
    requires Indexed(st) && Timely(st.leases, env.now) && AllOk(st.leases) && Settles(op, env, st, us)
    ensures Batch(op, env, st, us).Ok?
    ensures AllSettled(op, st.bank, st.leases, us, env.now, Batch(op, env, st, us).value.st.leases)
    decreases |us|
  {
    assert us != [] ==> Distinct(us);
    hide Indexed, Timely, AllOk, Settles, Batch, AtTurn, AllSettled, Distinct;
    SettlesIsOk(op, env, st, us);
    if us == [] {
      Batches.BatchNone(op, env, st);
      NoneSettled(op, st.bank, st.leases, env.now);
    } else {
      var n := |us| - 1;
      SettlesPrefix(op, env, st, us);
      BatchSettles(op, env, st, us[..n]);
      SettledAtTurn(op, env, st, us);
      AllSettledNext(op, st.bank, st.leases, us, env.now, Batch(op, env, st, us[..n]).value.st.leases);
    }
  }

  // ---------------------------------------------------------------- whom a sweep reaches

  function LeasesOf(st: Store, provider: string, state: LeaseState): set<Uuid> {
    set u | u in st.leases && st.leases[u].providerUuid == provider && st.leases[u].state == state
  }

  lemma TakeConcat<T>(a: seq<T>, b: seq<T>, n: nat, x: T)
    ensures x in Take(a + b, n) <==> x in Take(a, n) || (n > |a| && x in Take(b, n - |a|))
  {
    if |a| >= n {
      assert Take(a + b, n) == Take(a, n);
    } else {
      assert Take(a + b, n) == a + Take(b, n - |a|);
    }
  }

  /** A sweep takes the provider's active leases in identifier order and then its closed ones, up
      to the limit, or to fifty if none is given. */
  lemma SweptIff(st: Store, provider: string, limit: nat, u: Uuid)
    ensures var n := if limit == 0 then 50 else limit;
            var active, closed := LeasesOf(st, provider, Active), LeasesOf(st, provider, Closed);
            u in SweepTargets(st, provider, limit) <==>
            (u in active && |Below(active, u)| < n) || (u in closed && |active| + |Below(closed, u)| < n)
  {
    hide Sorted, Below, Take, Increasing;
    var n := if limit == 0 then 50 else limit;
    var active, closed := LeasesOf(st, provider, Active), LeasesOf(st, provider, Closed);
    TakeConcat(Sorted(active), Sorted(closed), n, u);
    TakenIffRanked(active, n, u);
    if n > |active| {
      TakenIffRanked(closed, n - |active|, u);
    }
  }
}
