/** Who may do what, and when: for every message the exact condition under which it is accepted,
    written from the sender, the leases, the catalog and the balances, and not from the checks
    the handlers perform. */
module Access {
  import opened Coins
  import opened Types
  import opened Reservations
  import opened Accrual
  import opened DomainIndex
  import opened Names
  import opened Sums
  import opened Ledger
  import opened Invariants
  import opened Reachable
  import opened Lifetime
  import opened Payments
  import opened Structure
  import opened Success
  import opened Pricing
  import opened DomainEdits
  import Overrun
  import Text
  import Genesis
  import UuidV7

  // ---------------------------------------------------------------- who

  /** The sender is the provider's address, or the authority. */
  predicate ActsFor(env: Env, sender: Address, provider: string) {
    provider in env.catalog.providers && (sender == env.catalog.providers[provider].address || sender == env.authority)
  }

  /** The authority and the accounts of the allowed list act for every tenant. */
  predicate Trusted(env: Env, st: Store, sender: Address) {
    sender == env.authority || sender in st.params.allowedList
  }

  // ---------------------------------------------------------------- lists of leases

  /** One to a hundred identifiers, well formed and pairwise different. */
  predicate WellListed(us: seq<Uuid>) {
    && 1 <= |us| <= 100
    && (forall i :: 0 <= i < |us| ==> UuidV7.IsValidUUIDv7(us[i]))
    && forall i, j :: 0 <= i < j < |us| ==> us[i] != us[j]
  }

  predicate AllIn(leases: map<Uuid, Lease>, us: seq<Uuid>, state: LeaseState) {
    forall u :: u in us ==> u in leases && leases[u].state == state
  }

  predicate OneProvider(leases: map<Uuid, Lease>, us: seq<Uuid>) {
    forall u, v :: u in us && v in us && u in leases && v in leases ==> leases[u].providerUuid == leases[v].providerUuid
  }

  /** The sender acts for the provider of every listed lease. */
  predicate ActsForAll(env: Env, sender: Address, leases: map<Uuid, Lease>, us: seq<Uuid>) {
    forall u :: u in us && u in leases ==> ActsFor(env, sender, leases[u].providerUuid)
  }

  lemma LastOf(us: seq<Uuid>)
    requires us != []
    ensures var n := |us| - 1; us[n] in us && forall u :: u in us <==> u in us[..n] || u == us[n]
  {
  }

  lemma FirstOf(us: seq<Uuid>)
    requires |us| > 1
    ensures us[..|us| - 1][0] == us[0] && us[0] in us[..|us| - 1] && us[0] in us
  {
  }

  lemma WellListedIs(us: seq<Uuid>)
    ensures ValidBatch(us) <==> WellListed(us)
    ensures WellListed(us) ==> us != [] && us[0] in us
  {
    hide UuidV7.IsValidUUIDv7;
  }

  lemma IndexedShelters(st: Store)
    requires Indexed(st)
    ensures Sheltered(st.leases, st.accounts)
  {
    hide Exact, SkuExact, Counted, Keyed, Sheltered;
  }

  lemma NamedProvider(leases: map<Uuid, Lease>, u: Uuid)
    requires AllOk(leases) && u in leases
    ensures leases[u].providerUuid != ""
  {
    OkAt(leases, u);
    hide AllOk, ItemsOk;
  }

  /** The provider that the first phase of an acknowledgement or a rejection finds. */
  lemma {:induction false} PendingProviderIs(st: Store, us: seq<Uuid>)
    requires AllOk(st.leases) && Sheltered(st.leases, st.accounts)
    ensures PendingProvider(st, us).Ok? <==> AllIn(st.leases, us, Pending) && OneProvider(st.leases, us)
    ensures PendingProvider(st, us).Ok? ==> PendingProvider(st, us).value == if us == [] then "" else st.leases[us[0]].providerUuid
    decreases |us|
  {
    hide AllOk;
    if us != [] {
      var n := |us| - 1;
      PendingProviderIs(st, us[..n]);
      LastOf(us);
      if us[n] in st.leases {
        NamedProvider(st.leases, us[n]);
      }
      if n > 0 {
        FirstOf(us);
        if us[0] in st.leases {
          NamedProvider(st.leases, us[0]);
        }
      }
    }
  }

  lemma ActsForOneOrAll(env: Env, sender: Address, leases: map<Uuid, Lease>, us: seq<Uuid>)
    requires OneProvider(leases, us) && us != [] && us[0] in leases
    ensures AuthorizeProvider(env, sender, leases[us[0]].providerUuid).Ok? <==> ActsForAll(env, sender, leases, us)
  {
    assert us[0] in us;
  }

  predicate MayAnswer(env: Env, st: Store, sender: Address, us: seq<Uuid>) {
    WellListed(us) && AllIn(st.leases, us, Pending) && OneProvider(st.leases, us) && ActsForAll(env, sender, st.leases, us)
  }

  /** Acknowledging and rejecting need the provider of all the listed pending leases, or the authority. */
  lemma AnswerIff(env: Env, st: Store, sender: Address, us: seq<Uuid>, reason: string)
    requires Indexed(st) && AllOk(st.leases)
    ensures AcknowledgeLease(env, st, sender, us).Ok? <==> MayAnswer(env, st, sender, us)
    ensures RejectLease(env, st, sender, us, reason).Ok? <==> MayAnswer(env, st, sender, us) && |reason| <= 256
  {
    hide Indexed, AllOk, AcknowledgeLease, RejectLease, PendingProvider, ValidBatch, WellListed, OneProvider, Sheltered;
    WellListedIs(us);
    PendingChecksDecide(env, st, sender, us, reason);
    IndexedShelters(st);
    PendingProviderIs(st, us);
    if AllIn(st.leases, us, Pending) && OneProvider(st.leases, us) && us != [] && us[0] in us {
      ActsForOneOrAll(env, sender, st.leases, us);
    }
  }

  lemma {:induction false} CancelIs(st: Store, tenant: Address, us: seq<Uuid>)
    ensures CheckCancel(st, tenant, us).Ok? <==> AllIn(st.leases, us, Pending) && forall u :: u in us && u in st.leases ==> st.leases[u].tenant == tenant
    decreases |us|
  {
    if us != [] {
      CancelIs(st, tenant, us[..|us| - 1]);
      LastOf(us);
    }
  }

  predicate MayCancel(st: Store, tenant: Address, us: seq<Uuid>) {
    WellListed(us) && AllIn(st.leases, us, Pending) && forall u :: u in us && u in st.leases ==> st.leases[u].tenant == tenant
  }

  /** Cancelling needs the tenant of all the listed pending leases. */
  lemma CancelIff(env: Env, st: Store, tenant: Address, us: seq<Uuid>)
    requires Indexed(st)
    ensures CancelLease(env, st, tenant, us).Ok? <==> MayCancel(st, tenant, us)
  {
    hide Indexed, CancelLease, CheckCancel, ValidBatch, WellListed;
    WellListedIs(us);
    CancelChecksDecide(env, st, tenant, us);
    IndexedShelters(st);
    CancelIs(st, tenant, us);
  }

  // ---------------------------------------------------------------- closing

  /** The sender is the authority, or the tenant of all the leases, or of none and the provider of all. */
  predicate MayEnd(env: Env, sender: Address, leases: map<Uuid, Lease>, us: seq<Uuid>) {
    || sender == env.authority
    || (forall u :: u in us && u in leases ==> sender == leases[u].tenant)
    || (forall u :: u in us && u in leases ==>
          && sender != leases[u].tenant && leases[u].providerUuid in env.catalog.providers
          && sender == env.catalog.providers[leases[u].providerUuid].address)
  }

  predicate SameRole(env: Env, sender: Address, leases: map<Uuid, Lease>, us: seq<Uuid>) {
    && (forall u :: u in us && u in leases ==> RoleFor(env, sender, leases[u]).Some?)
    && (forall u, v :: u in us && v in us && u in leases && v in leases ==> RoleFor(env, sender, leases[u]) == RoleFor(env, sender, leases[v]))
  }

  lemma SameRoleIs(env: Env, sender: Address, leases: map<Uuid, Lease>, us: seq<Uuid>)
    requires us != [] && us[0] in leases
    ensures SameRole(env, sender, leases, us) <==> MayEnd(env, sender, leases, us)
  {
    assert us[0] in us;
  }

  lemma {:induction false} CloseRoleIs(env: Env, st: Store, sender: Address, us: seq<Uuid>)
    requires Sheltered(st.leases, st.accounts)
    ensures CloseRole(env, st, sender, us).Ok? <==> AllIn(st.leases, us, Active) && SameRole(env, sender, st.leases, us)
    ensures CloseRole(env, st, sender, us).Ok? ==>
              CloseRole(env, st, sender, us).value == if us == [] then None else RoleFor(env, sender, st.leases[us[|us| - 1]])
    decreases |us|
  {
    hide RoleFor;
    if us != [] {
      var n := |us| - 1;
      CloseRoleIs(env, st, sender, us[..n]);
      LastOf(us);
      if n > 0 {
        LastOf(us[..n]);
      }
    }
  }

  predicate MayClose(env: Env, st: Store, sender: Address, us: seq<Uuid>) {
    WellListed(us) && AllIn(st.leases, us, Active) && MayEnd(env, sender, st.leases, us)
  }

  lemma CloseNeeds(env: Env, st: Store, sender: Address, us: seq<Uuid>, reason: string)
    requires CloseLease(env, st, sender, us, reason).Ok?
    ensures ValidBatch(us) && |reason| <= 256 && CloseRole(env, st, sender, us).Ok?
  {
    hide ValidBatch, CloseRole, Batch;
  }

  /** Closing needs active leases and one role for all of them. */
  lemma CloseIff(env: Env, st: Store, sender: Address, us: seq<Uuid>, reason: string)
    requires Indexed(st) && Timely(st.leases, env.now)
    ensures CloseLease(env, st, sender, us, reason).Ok? ==> MayClose(env, st, sender, us) && |reason| <= 256
    ensures MayClose(env, st, sender, us) && |reason| <= 256 && (forall u :: u in us && u in st.leases ==> st.leases[u].providerUuid in env.catalog.providers)
            ==> CloseLease(env, st, sender, us, reason).Ok?
  {
    hide Indexed, CloseLease, CloseRole, ValidBatch, WellListed, Timely, MayEnd, SameRole, Sheltered;
    WellListedIs(us);
    IndexedShelters(st);
    CloseRoleIs(env, st, sender, us);
    if us != [] && us[0] in st.leases {
      SameRoleIs(env, sender, st.leases, us);
    }
    if CloseLease(env, st, sender, us, reason).Ok? {
      CloseNeeds(env, st, sender, us, reason);
    }
    if forall u :: u in us && u in st.leases ==> st.leases[u].providerUuid in env.catalog.providers {
      CloseChecksDecide(env, st, sender, us, reason);
    }
  }

  // ---------------------------------------------------------------- withdrawing

  lemma {:induction false} WithdrawProviderIs(env: Env, st: Store, sender: Address, us: seq<Uuid>)
    requires us != []
    ensures WithdrawProvider(env, st, sender, us).Ok? <==>
            (forall u :: u in us ==> u in st.leases) && OneProvider(st.leases, us) && ActsForAll(env, sender, st.leases, us)
    ensures WithdrawProvider(env, st, sender, us).Ok? ==> WithdrawProvider(env, st, sender, us).value == st.leases[us[0]].providerUuid
    decreases |us|
  {
    var n := |us| - 1;
    LastOf(us);
    if n > 0 {
      WithdrawProviderIs(env, st, sender, us[..n]);
      FirstOf(us);
    }
  }

  /** Something is due: a whole second since the last settlement, or none at all while some price
      of the lease has no credit left, which closes it. */
  predicate Collectable(bank: Bank, l: Lease, now: Time) {
    && l.state == Active
    && (|| now - l.lastSettledAt >= 1_000_000_000
        || (now == l.lastSettledAt && exists i :: 0 <= i < |l.items| && Holding(bank, Credit(l.tenant), l.items[i].lockedPrice.denom) == 0))
  }

  lemma DueWhenSecondsPassed(l: Lease, now: Time)
    requires LeaseOk(l) && l.lastSettledAt <= now && (now - l.lastSettledAt) / 1_000_000_000 <= 3_153_600_000
    ensures DueAt(l, now) == NO_COINS <==> now - l.lastSettledAt < 1_000_000_000
  {
    hide LeaseOk, Rate, Accrued;
    Genesis.OkLeaseCosts(l);
    var d :| Rate(l.items, d) > 0;
    AccruedBySecond(l.items, now, l.lastSettledAt, d);
    var seconds := (now - l.lastSettledAt) / 1_000_000_000;
    if seconds > 0 {
      assert Rate(l.items, d) * seconds > 0;
      assert d in DueAt(l, now);
    } else {
      forall d ensures AmountOf(DueAt(l, now), d) == AmountOf(NO_COINS, d) {
        AccruedBySecond(l.items, now, l.lastSettledAt, d);
      }
      CoinsEqual(DueAt(l, now), NO_COINS);
    }
  }

  lemma ZeroGapExhausts(bank: Bank, l: Lease)
    ensures Exhausted(bank, l, l.lastSettledAt) <==>
            exists i :: 0 <= i < |l.items| && Holding(bank, Credit(l.tenant), l.items[i].lockedPrice.denom) == 0
  {
    hide Available, Holding;
    forall i | 0 <= i < |l.items|
      ensures AmountOf(Available(bank, l), l.items[i].lockedPrice.denom) == Holding(bank, Credit(l.tenant), l.items[i].lockedPrice.denom)
    {
      AvailableAt(bank, l, l.items[i].lockedPrice.denom);
      Overrun.ItemDenom(l.items, i);
    }
  }

  lemma NothingDueNotExhausted(bank: Bank, l: Lease, now: Time)
    requires l.lastSettledAt < now && DueAt(l, now) == NO_COINS && WithinLimit(l, now)
    ensures !Exhausted(bank, l, now)
  {
    hide Accrued, Available, Overflows;
    SaturationIsHarmless(now, l.lastSettledAt);
  }

  /** A withdrawal step that does nothing is one with nothing to collect. */
  lemma IdleIff(st: Store, env: Env, l: Lease)
    requires LeaseOk(l) && TimelyLease(l, env.now) && WithdrawOne(st, env, l).Ok?
    ensures WithdrawOne(st, env, l).value.receipts == [] <==> !Collectable(st.bank, l, env.now)
    ensures WithdrawOne(st, env, l).value.receipts == [] ==> WithdrawOne(st, env, l).value.st == st
  {
    Overrun.SettledBefore(l, env.now);
    hide LeaseOk, TimelyLease, Settle, Finish, SetLease, Exhausted, DueAt, SettleTime, Holding, WithinLimit;
    var at := SettleTime(l, env.now);
    if l.state != Active {
      Overrun.NotActiveStaysOpen(st.bank, l, env.now);
      NoTimeNoCharge(st.bank, env.catalog, l, at, false);
    } else {
      Overrun.OpenMeansNotExhausted(st.bank, l, env.now);
      ActiveIdle(st.bank, env.catalog, l, env.now);
      if Exhausted(st.bank, l, env.now) {
        FinishHasReceipt(st, env, l, true, CREDIT_EXHAUSTED, false);
      }
    }
  }

  lemma FinishHasReceipt(st: Store, env: Env, l: Lease, silent: bool, reason: string, wrap: bool)
    ensures Finish(st, env, l, silent, reason, wrap).Ok? ==> |Finish(st, env, l, silent, reason, wrap).value.receipts| == 1
  {
    hide Settle, Move, MakeReceipt, Release;
  }

  lemma ActiveIdle(bank: Bank, catalog: Catalog, l: Lease, now: Time)
    requires LeaseOk(l) && l.state == Active && l.lastSettledAt <= now
    ensures Collectable(bank, l, now) <==> Exhausted(bank, l, now) || DueAt(l, now) != NO_COINS
    ensures !Exhausted(bank, l, now) && Settle(bank, catalog, l, now, false).Ok? ==> Settle(bank, catalog, l, now, false).value.accrued == DueAt(l, now)
  {
    hide LeaseOk, Settle, Holding;
    if !Exhausted(bank, l, now) && Settle(bank, catalog, l, now, false).Ok? {
      FullSettlement(bank, catalog, l, now, false, "");
    }
    AccruedBySecond(l.items, now, l.lastSettledAt, "");
    if (now - l.lastSettledAt) / 1_000_000_000 <= 3_153_600_000 {
      DueWhenSecondsPassed(l, now);
      if now == l.lastSettledAt {
        ZeroGapExhausts(bank, l);
      } else if DueAt(l, now) == NO_COINS {
        NothingDueNotExhausted(bank, l, now);
      }
    } else {
      SaturationIsHarmless(now, l.lastSettledAt);
      HasItems(l);
    }
  }

  lemma HasItems(l: Lease)
    requires LeaseOk(l)
    ensures l.items != []
  {
    hide UuidV7.IsValidUUIDv7, NamesOk, Addressable, ItemOk;
  }

  /** A batch of withdrawals without payments found nothing to collect anywhere. */
  lemma {:induction false} IdleBatch(env: Env, st: Store, us: seq<Uuid>)
    requires AllOk(st.leases) && Timely(st.leases, env.now) && Batch(OpWithdraw, env, st, us).Ok?
    requires forall u :: u in us ==> u in st.leases
    ensures Batch(OpWithdraw, env, st, us).value.receipts == [] <==> forall u :: u in us ==> !Collectable(st.bank, st.leases[u], env.now)
    ensures Batch(OpWithdraw, env, st, us).value.receipts == [] ==> Batch(OpWithdraw, env, st, us).value.st == st
    decreases |us|
  {
    hide AllOk, Timely, Collectable, WithdrawOne, One;
    if us != [] {
      var n := |us| - 1;
      LastOf(us);
      IdleBatch(env, st, us[..n]);
      var before := Batch(OpWithdraw, env, st, us[..n]).value;
      if before.receipts == [] {
        OneWithdraws(env, st, us[n]);
        OkAt(st.leases, us[n]);
        TimelyAt(st.leases, us[n], env.now);
        IdleIff(st, env, st.leases[us[n]]);
      }
    }
  }

  lemma OneWithdraws(env: Env, st: Store, u: Uuid)
    requires u in st.leases
    ensures One(OpWithdraw, env, st, u) == WithdrawOne(st, env, st.leases[u])
  {
    hide WithdrawOne;
  }

  predicate MayWithdraw(env: Env, st: Store, sender: Address, us: seq<Uuid>) {
    && WellListed(us) && (forall u :: u in us ==> u in st.leases)
    && OneProvider(st.leases, us) && ActsForAll(env, sender, st.leases, us)
    && exists u :: u in us && Collectable(st.bank, st.leases[u], env.now)
  }

  lemma ReadyToWithdraw(env: Env, st: Store, sender: Address, us: seq<Uuid>)
    requires Timely(st.leases, env.now) && (forall u :: u in us ==> u in st.leases) && ActsForAll(env, sender, st.leases, us)
    ensures AllReady(OpWithdraw, env, st.leases, us)
  {
    hide TimelyLease;
  }

  /** Withdrawing needs the provider of all the listed leases, or the authority, and something to
      collect from one of them. */
  lemma WithdrawIff(env: Env, st: Store, sender: Address, us: seq<Uuid>)
    requires Indexed(st) && AllOk(st.leases) && Timely(st.leases, env.now)
    ensures WithdrawLeases(env, st, sender, us).Ok? <==> MayWithdraw(env, st, sender, us)
  {
    hide Indexed, AllOk, Timely, ValidBatch, WellListed, WithdrawProvider, Batch, OneProvider, ActsForAll, Collectable, AllReady, Distinct;
    WellListedIs(us);
    if us != [] {
      WithdrawProviderIs(env, st, sender, us);
      if ValidBatch(us) && WithdrawProvider(env, st, sender, us).Ok? {
        ListedIsDistinct(us);
        ReadyToWithdraw(env, st, sender, us);
        BatchSucceeds(OpWithdraw, env, st, us);
        IdleBatch(env, st, us);
      }
    }
  }

  lemma ListedIsDistinct(us: seq<Uuid>)
    requires ValidBatch(us)
    ensures Distinct(us)
  {
    hide UuidV7.IsValidUUIDv7;
  }

  lemma {:induction false} LenientNeverFails(op: Op, env: Env, st: Store, us: seq<Uuid>)
    requires Lenient(op)
    ensures Batch(op, env, st, us).Ok?
    decreases |us|
  {
    hide Strict;
    if us != [] {
      LenientNeverFails(op, env, st, us[..|us| - 1]);
    }
  }

  /** A provider-wide sweep needs the provider or the authority and is then never refused. */
  lemma SweepIff(env: Env, st: Store, sender: Address, provider: string, limit: nat)
    ensures WithdrawAll(env, st, sender, provider, limit).Ok? <==>
            UuidV7.IsValidUUIDv7(provider) && limit <= 100 && ActsFor(env, sender, provider)
  {
    hide UuidV7.IsValidUUIDv7, Batch, SweepTargets;
    LenientNeverFails(OpSweep, env, st, SweepTargets(st, provider, limit));
  }

  // ---------------------------------------------------------------- funding and parameters

  predicate MayFund(st: Store, sender: Address, amount: Coin) {
    amount.amount > 0 && ValidDenom(amount.denom) && Holding(st.bank, sender, amount.denom) >= amount.amount
  }

  /** Anyone may fund anyone, from what they have. */
  lemma FundIff(st: Store, sender: Address, tenant: Address, amount: Coin)
    ensures FundCredit(st, sender, tenant, amount).Ok? <==> MayFund(st, sender, amount)
  {
    hide ValidDenom, SetAccount, Monus, Add;
    if amount.amount > 0 {
      assert amount.denom in Single(amount) && forall d :: d in Single(amount) ==> d == amount.denom;
    }
  }

  predicate MaySetParams(env: Env, sender: Address, p: Params) {
    && sender == env.authority
    && 1 <= p.maxLeasesPerTenant <= 10_000 && 1 <= p.maxPendingLeasesPerTenant <= 1_000
    && 1 <= p.maxItemsPerLease <= 100 && 1 <= p.minLeaseDuration <= 2_592_000 && 60 <= p.pendingTimeout <= 86_400
    && (forall i, j :: 0 <= i < j < |p.allowedList| ==> p.allowedList[i] != p.allowedList[j])
    && (forall i, j :: 0 <= i < j < |p.reservedDomainSuffixes| ==> p.reservedDomainSuffixes[i] != p.reservedDomainSuffixes[j])
    && (forall i :: 0 <= i < |p.reservedDomainSuffixes| ==> ValidSuffix(p.reservedDomainSuffixes[i]))
  }

  lemma ParamsIff(env: Env, st: Store, sender: Address, p: Params)
    ensures UpdateParams(env, st, sender, p).Ok? <==> MaySetParams(env, sender, p)
  {
    hide ValidSuffix;
  }

  // ---------------------------------------------------------------- creating

  predicate SoundInput(it: LeaseItemInput) {
    UuidV7.IsValidUUIDv7(it.skuUuid) && 1 <= it.quantity <= 1_000_000_000
  }

  /** All unnamed with different SKUs, or all named with different labels. */
  predicate SoundNames(inputs: seq<LeaseItemInput>) {
    || ((forall i :: 0 <= i < |inputs| ==> inputs[i].serviceName == "") &&
        (forall i, j :: 0 <= i < j < |inputs| ==> inputs[i].skuUuid != inputs[j].skuUuid))
    || ((forall i :: 0 <= i < |inputs| ==> ValidLabel(inputs[i].serviceName)) &&
        (forall i, j :: 0 <= i < j < |inputs| ==> inputs[i].serviceName != inputs[j].serviceName))
  }

  predicate SoundOrder(inputs: seq<LeaseItemInput>) {
    1 <= |inputs| <= 100 && (forall i :: 0 <= i < |inputs| ==> SoundInput(inputs[i])) && SoundNames(inputs)
  }

  lemma {:induction false} EachItemIs(items: seq<LeaseItemInput>)
    ensures CheckEachItem(items).Ok? <==> forall i :: 0 <= i < |items| ==> SoundInput(items[i])
    decreases |items|
  {
    hide UuidV7.IsValidUUIDv7;
    if items != [] {
      var n := |items| - 1;
      EachItemIs(items[..n]);
      assert forall i :: 0 <= i < n ==> items[..n][i] == items[i];
      assert CheckItem(items[n]).Ok? <==> SoundInput(items[n]);
      hide SoundInput, CheckItem;
    }
  }

  lemma LabelsAreNames(s: string)
    ensures ValidLabel(s) ==> s != ""
  {
  }

  lemma OrderIs(inputs: seq<LeaseItemInput>)
    ensures CheckLeaseItems(inputs).Ok? <==> SoundOrder(inputs)
    ensures SoundOrder(inputs) ==> inputs != []
  {
    EachItemIs(inputs);
    LabelsAreNames("");
    hide CheckEachItem, SoundInput, ValidLabel;
    if inputs != [] {
      assert NoneNamed(inputs) ==> inputs[0].serviceName == "";
    }
  }

  /** The SKU can be leased from this provider: active, with a price that divides into whole units
      of the denomination per second. */
  predicate Offered(catalog: Catalog, provider: string, sku: string) {
    && sku in catalog.skus && catalog.skus[sku].active && catalog.skus[sku].providerUuid == provider
    && catalog.skus[sku].basePrice.amount > 0
    && match catalog.skus[sku].unit
       case PerHour => catalog.skus[sku].basePrice.amount % 3600 == 0
       case PerDay => catalog.skus[sku].basePrice.amount % 86400 == 0
       case UnitUnspecified => false
  }

  predicate AllOffered(catalog: Catalog, provider: string, inputs: seq<LeaseItemInput>) {
    forall i :: 0 <= i < |inputs| ==> Offered(catalog, provider, inputs[i].skuUuid)
  }

  function ProviderOf(catalog: Catalog, sku: string): string {
    if sku in catalog.skus then catalog.skus[sku].providerUuid else ""
  }

  lemma OfferedIs(catalog: Catalog, sku: string)
    requires sku in catalog.skus && catalog.skus[sku].active
    ensures PricePerSecond(catalog.skus[sku]).Some? <==> Offered(catalog, catalog.skus[sku].providerUuid, sku)
  {
  }

  lemma {:induction false} PriceIff(catalog: Catalog, inputs: seq<LeaseItemInput>)
    requires inputs != []
    ensures var p := ProviderOf(catalog, inputs[0].skuUuid);
            && (PriceItems(catalog, inputs).Ok? <==> AllOffered(catalog, p, inputs))
            && (PriceItems(catalog, inputs).Ok? ==> PriceItems(catalog, inputs).value.provider == p)
    decreases |inputs|
  {
    var n := |inputs| - 1;
    var sku := inputs[n].skuUuid;
    if sku in catalog.skus && catalog.skus[sku].active {
      OfferedIs(catalog, sku);
    }
    hide PricePerSecond;
    assert forall i :: 0 <= i < n ==> inputs[..n][i] == inputs[i];
    if n > 0 {
      PriceIff(catalog, inputs[..n]);
    } else {
      assert inputs[..0] == [];
    }
  }

  /** Enough credit: in every denomination of the order the balance covers what is reserved and the
      new reservation, which is the daily price for the minimum duration. */
  predicate Affordable(env: Env, st: Store, tenant: Address, inputs: seq<LeaseItemInput>)
    requires tenant in st.accounts
  {
    forall i :: 0 <= i < |inputs| && inputs[i].skuUuid in env.catalog.skus ==>
      var d := env.catalog.skus[inputs[i].skuUuid].basePrice.denom;
      (Holding(st.bank, Credit(tenant), d) - AmountOf(st.accounts[tenant].reservedAmounts, d)) * 86400
      >= DayPrices(env.catalog, inputs, d) * st.params.minLeaseDuration
  }

  ghost predicate MayCreate(env: Env, st: Store, tenant: Address, inputs: seq<LeaseItemInput>, metaHash: seq<int>) {
    && |metaHash| <= 64 && SoundOrder(inputs) && |inputs| <= st.params.maxItemsPerLease
    && tenant in st.accounts
    && Sum(st.leases, ActiveOf(tenant)) < st.params.maxLeasesPerTenant
    && Sum(st.leases, PendingOf(tenant)) < st.params.maxPendingLeasesPerTenant
    && Affordable(env, st, tenant, inputs)
    && var p := ProviderOf(env.catalog, inputs[0].skuUuid);
       p in env.catalog.providers && env.catalog.providers[p].active && AllOffered(env.catalog, p, inputs)
  }

  lemma FreeAmount(st: Store, tenant: Address, ds: set<string>, d: string)
    requires tenant in st.accounts && d in ds
    ensures var held, reserved := Holding(st.bank, Credit(tenant), d), AmountOf(st.accounts[tenant].reservedAmounts, d);
            AmountOf(Free(st, tenant, ds), d) == if held > reserved then held - reserved else 0
  {
  }

  lemma SameScale(held: nat, reserved: nat, rate: nat, min: nat, day: nat)
    requires rate * 86400 == day && rate > 0 && min > 0
    ensures (if held > reserved then held - reserved else 0) >= rate * min <==> (held - reserved) * 86400 >= day * min
  {
    Reorder(rate, 86400, min);
    var need := rate * min;
    assert need > 0 && day * min == need * 86400;
  }

  lemma ItemHasRate(items: seq<LeaseItem>, i: nat)
    requires i < |items| && items[i].quantity > 0 && items[i].lockedPrice.amount > 0
    ensures Rate(items, items[i].lockedPrice.denom) > 0
    decreases |items|
  {
    var n := |items| - 1;
    if i < n {
      ItemHasRate(items[..n], i);
    } else {
      Genesis.PositiveRate(items[n]);
    }
  }

  lemma CoversEach(free: Coins, rates: Coins, min: nat)
    requires min > 0
    ensures Covers(free, Scale(rates, min)) <==> forall d :: d in rates ==> AmountOf(free, d) >= rates[d] * min
  {
    forall d | d in rates ensures d in Scale(rates, min) && Scale(rates, min)[d] == rates[d] * min {
    }
  }

  /** One denomination of the credit check. */
  lemma CoveredAt(env: Env, st: Store, tenant: Address, inputs: seq<LeaseItemInput>, items: seq<LeaseItem>, d: string)
    requires tenant in st.accounts && PricedFrom(env.catalog, inputs, items) && d in Rates(items) && st.params.minLeaseDuration > 0
    ensures AmountOf(Free(st, tenant, Rates(items).Keys), d) >= Rates(items)[d] * st.params.minLeaseDuration <==>
            (Holding(st.bank, Credit(tenant), d) - AmountOf(st.accounts[tenant].reservedAmounts, d)) * 86400
            >= DayPrices(env.catalog, inputs, d) * st.params.minLeaseDuration
  {
    hide Free, Rates, Rate, DayPrices, Holding, PricedFrom;
    assert Rates(items)[d] == Rate(items, d) > 0;
    FreeAmount(st, tenant, Rates(items).Keys, d);
    RateIsCatalogs(env.catalog, inputs, items, d);
    SameScale(Holding(st.bank, Credit(tenant), d), AmountOf(st.accounts[tenant].reservedAmounts, d), Rate(items, d),
              st.params.minLeaseDuration, DayPrices(env.catalog, inputs, d));
  }

  lemma CoveredIff(env: Env, st: Store, tenant: Address, inputs: seq<LeaseItemInput>, items: seq<LeaseItem>)
    requires tenant in st.accounts && PricedFrom(env.catalog, inputs, items) && st.params.minLeaseDuration > 0
    requires forall i :: 0 <= i < |inputs| ==> inputs[i].quantity > 0
    ensures Covers(Free(st, tenant, Rates(items).Keys), Scale(Rates(items), st.params.minLeaseDuration)) <==> Affordable(env, st, tenant, inputs)
  {
    hide Free, Rates, Covers, Scale, DayPrices, Holding, Rate, Affordable;
    CoversEach(Free(st, tenant, Rates(items).Keys), Rates(items), st.params.minLeaseDuration);
    if Covers(Free(st, tenant, Rates(items).Keys), Scale(Rates(items), st.params.minLeaseDuration)) {
      CoveredIsAffordable(env, st, tenant, inputs, items);
    }
    if Affordable(env, st, tenant, inputs) {
      AffordableIsCovered(env, st, tenant, inputs, items);
    }
  }

  lemma CoveredIsAffordable(env: Env, st: Store, tenant: Address, inputs: seq<LeaseItemInput>, items: seq<LeaseItem>)
    requires tenant in st.accounts && PricedFrom(env.catalog, inputs, items) && st.params.minLeaseDuration > 0
    requires forall i :: 0 <= i < |inputs| ==> inputs[i].quantity > 0
    requires forall d :: d in Rates(items) ==> AmountOf(Free(st, tenant, Rates(items).Keys), d) >= Rates(items)[d] * st.params.minLeaseDuration
    ensures Affordable(env, st, tenant, inputs)
  {
    hide Free, Rates, DayPrices, Holding, Rate;
    forall i | 0 <= i < |inputs|
      ensures var d := env.catalog.skus[inputs[i].skuUuid].basePrice.denom;
              (Holding(st.bank, Credit(tenant), d) - AmountOf(st.accounts[tenant].reservedAmounts, d)) * 86400
              >= DayPrices(env.catalog, inputs, d) * st.params.minLeaseDuration
    {
      assert PricedAs(env.catalog.skus[inputs[i].skuUuid], items[i].lockedPrice);
      ItemHasRate(items, i);
      CoveredAt(env, st, tenant, inputs, items, items[i].lockedPrice.denom);
    }
  }

  lemma AffordableIsCovered(env: Env, st: Store, tenant: Address, inputs: seq<LeaseItemInput>, items: seq<LeaseItem>)
    requires tenant in st.accounts && PricedFrom(env.catalog, inputs, items) && st.params.minLeaseDuration > 0
    requires Affordable(env, st, tenant, inputs)
    ensures forall d :: d in Rates(items) ==> AmountOf(Free(st, tenant, Rates(items).Keys), d) >= Rates(items)[d] * st.params.minLeaseDuration
  {
    hide Free, Rates, DayPrices, Holding, Rate;
    forall d | d in Rates(items)
      ensures AmountOf(Free(st, tenant, Rates(items).Keys), d) >= Rates(items)[d] * st.params.minLeaseDuration
    {
      CoveredAt(env, st, tenant, inputs, items, d);
      RateNeedsDenom(items, d);
      var it :| it in items && it.lockedPrice.denom == d;
      var i :| 0 <= i < |items| && items[i] == it;
      assert PricedAs(env.catalog.skus[inputs[i].skuUuid], items[i].lockedPrice);
    }
  }

  /** What a creation checks, one after the other. */
  lemma CreateUnfolds(env: Env, st: Store, tenant: Address, inputs: seq<LeaseItemInput>, metaHash: seq<int>)
    ensures CreateLease(env, st, tenant, inputs, metaHash).Ok? <==>
            && |metaHash| <= 64 && CheckLeaseItems(inputs).Ok? && Admit(st, tenant, |inputs|).Ok? && PriceItems(env.catalog, inputs).Ok?
            && var q, ca := PriceItems(env.catalog, inputs).value, Admit(st, tenant, |inputs|).value;
               var reservation := Scale(Rates(q.items), st.params.minLeaseDuration);
               && q.provider in env.catalog.providers && env.catalog.providers[q.provider].active
               && tenant in st.accounts && Covers(Free(st, tenant, Rates(q.items).Keys), reservation)
               && Place(st, NewLease(env, st, tenant, q, metaHash), Reserve(ca, reservation)).Ok?
  {
    hide CheckLeaseItems, PriceItems, Rates, Scale, Covers, Free, Place, NewLease, Reserve;
  }

  lemma AdmitIff(st: Store, tenant: Address, count: nat)
    requires Indexed(st)
    ensures Admit(st, tenant, count).Ok? <==>
            && count <= st.params.maxItemsPerLease && tenant in st.accounts
            && Sum(st.leases, ActiveOf(tenant)) < st.params.maxLeasesPerTenant
            && Sum(st.leases, PendingOf(tenant)) < st.params.maxPendingLeasesPerTenant
    ensures Admit(st, tenant, count).Ok? ==> Admit(st, tenant, count).value == st.accounts[tenant] && st.accounts[tenant].tenant == tenant
  {
    hide Exact, SkuExact, Sheltered, Sum, CreditIndexOf, LeasesFiled;
  }

  lemma PlaceSucceeds(env: Env, st: Store, tenant: Address, inputs: seq<LeaseItemInput>, metaHash: seq<int>, ca: CreditAccount)
    requires Indexed(st) && PriceItems(env.catalog, inputs).Ok? && ca.tenant in st.accounts
    ensures Place(st, NewLease(env, st, tenant, PriceItems(env.catalog, inputs).value, metaHash), ca).Ok?
  {
    assert Exact(st.domainIndex, st.leases) && st.creditIndex == CreditIndexOf(st.accounts) by {
      hide Exact, SkuExact, Sheltered, Counted, LeasesFiled, AccountsFiled, CreditIndexOf;
    }
    NewLeaseClaimsNothing(env.catalog, inputs);
    hide Indexed, Exact, CreditIndexOf, PriceItems, Place, ByService, UuidV7.Generate;
    PlaceEffect(st, NewLease(env, st, tenant, PriceItems(env.catalog, inputs).value, metaHash), ca);
  }

  lemma CreateChecks(env: Env, st: Store, tenant: Address, inputs: seq<LeaseItemInput>)
    requires st.params.minLeaseDuration > 0 && tenant in st.accounts && SoundOrder(inputs) && PriceItems(env.catalog, inputs).Ok?
    ensures var items := PriceItems(env.catalog, inputs).value.items;
            Covers(Free(st, tenant, Rates(items).Keys), Scale(Rates(items), st.params.minLeaseDuration)) <==> Affordable(env, st, tenant, inputs)
  {
    var q := PriceItems(env.catalog, inputs).value;
    assert forall i :: 0 <= i < |inputs| ==> SoundInput(inputs[i]) && inputs[i].quantity > 0;
    hide PriceItems, Covers, Free, Rates, Scale, Affordable, SoundInput, SoundOrder, PricedFrom, Quoted;
    QuoteMatches(env.catalog, inputs);
    QuotedIsPriced(env.catalog, q.provider, inputs, q.items);
    CoveredIff(env, st, tenant, inputs, q.items);
  }

  /** A lease is created exactly for a well-formed order of offered SKUs of one active provider, by
      a tenant below both limits whose credit covers all reservations and the new one. */
  lemma CreateIff(env: Env, st: Store, tenant: Address, inputs: seq<LeaseItemInput>, metaHash: seq<int>)
    requires Indexed(st) && st.params.minLeaseDuration > 0
    ensures CreateLease(env, st, tenant, inputs, metaHash).Ok? <==> MayCreate(env, st, tenant, inputs, metaHash)
  {
    hide Indexed, CheckLeaseItems, SoundOrder, PriceItems, CreateLease, Covers, Free, Rates, Scale, Place, NewLease, Admit, AllOffered, Affordable, Sum;
    OrderIs(inputs);
    CreateUnfolds(env, st, tenant, inputs, metaHash);
    AdmitIff(st, tenant, |inputs|);
    if inputs != [] {
      PriceIff(env.catalog, inputs);
    }
    if SoundOrder(inputs) && PriceItems(env.catalog, inputs).Ok? && Admit(st, tenant, |inputs|).Ok? {
      CreateChecks(env, st, tenant, inputs);
      var reservation := Scale(Rates(PriceItems(env.catalog, inputs).value.items), st.params.minLeaseDuration);
      PlaceSucceeds(env, st, tenant, inputs, metaHash, Reserve(st.accounts[tenant], reservation));
    }
  }

  /** On a tenant's behalf the same, by the authority or the allowed list. */
  lemma CreateForIff(env: Env, st: Store, sender: Address, tenant: Address, inputs: seq<LeaseItemInput>, metaHash: seq<int>)
    requires Indexed(st) && st.params.minLeaseDuration > 0
    ensures CreateLeaseForTenant(env, st, sender, tenant, inputs, metaHash).Ok? <==>
            Trusted(env, st, sender) && MayCreate(env, st, tenant, inputs, metaHash)
  {
    CreateIff(env, st, tenant, inputs, metaHash);
    OrderIs(inputs);
    hide Indexed, CreateLease, CheckLeaseItems, SoundOrder, Affordable, AllOffered, Sum;
  }

  // ---------------------------------------------------------------- custom domains

  predicate MaySetDomain(env: Env, st: Store, sender: Address, u: Uuid, service: string, domain: string) {
    && UuidV7.IsValidUUIDv7(u) && (service == "" || ValidLabel(service)) && (domain == "" || ValidFqdn(domain))
    && MayEdit(env, st, sender, u, service, domain)
  }

  lemma NormalAlready(domain: string)
    requires domain == "" || ValidFqdn(domain)
    ensures Normalize(domain) == domain
  {
    hide ValidFqdn;
    if domain != "" {
      ValidIsNormal(domain);
    }
  }

  /** The message takes a domain in its normal form only. */
  lemma SetDomainIff(env: Env, st: Store, sender: Address, u: Uuid, service: string, domain: string)
    requires Indexed(st) && AllOk(st.leases)
    ensures SetItemCustomDomain(env, st, sender, u, service, domain).Ok? <==> MaySetDomain(env, st, sender, u, service, domain)
    ensures SetItemCustomDomain(env, st, sender, u, service, domain).Ok? ==>
              Edited(st, u, service, domain, SetItemCustomDomain(env, st, sender, u, service, domain).value.st)
  {
    hide Indexed, AllOk, EditedStore, MayEdit, Edited, ValidFqdn, ValidLabel, UuidV7.IsValidUUIDv7, Normalize;
    if domain == "" || ValidFqdn(domain) {
      NormalAlready(domain);
    }
    EditIff(env, st, sender, u, service, domain);
  }

  // ---------------------------------------------------------------- every event

  /** When an event is accepted. */
  ghost predicate Permits(env: Env, st: Store, ev: Event) {
    match ev
    case Fund(sender, tenant, amount) => MayFund(st, sender, amount)
    case Create(tenant, inputs, metaHash) => MayCreate(env, st, tenant, inputs, metaHash)
    case CreateFor(sender, tenant, inputs, metaHash) => Trusted(env, st, sender) && MayCreate(env, st, tenant, inputs, metaHash)
    case Acknowledge(sender, us) => MayAnswer(env, st, sender, us)
    case Reject(sender, us, reason) => MayAnswer(env, st, sender, us) && |reason| <= 256
    case Cancel(tenant, us) => MayCancel(st, tenant, us)
    case Close(sender, us, reason) => MayClose(env, st, sender, us) && |reason| <= 256
    case Withdraw(sender, us) => MayWithdraw(env, st, sender, us)
    case Sweep(sender, provider, limit) => UuidV7.IsValidUUIDv7(provider) && limit <= 100 && ActsFor(env, sender, provider)
    case SetDomain(sender, u, service, domain) => MaySetDomain(env, st, sender, u, service, domain)
    case SetParams(sender, params) => MaySetParams(env, sender, params)
    case BlockEnd => true
    case External(_) => true
  }

  /** The providers of the leases to close are in the catalog, from which nothing is removed. */
  predicate Supplied(env: Env, st: Store, ev: Event) {
    ev.Close? ==> forall u :: u in ev.uuids && u in st.leases ==> st.leases[u].providerUuid in env.catalog.providers
  }

  lemma BlockNeverFails(env: Env, st: Store)
    ensures EndBlock(env, st).Ok?
  {
    hide Batch, OverdueLeases;
    LenientNeverFails(OpExpire, env, st, Text.Take(Text.Sorted(OverdueLeases(st, env.now)), MAX_PENDING_LEASE_EXPIRATIONS_PER_BLOCK));
  }

  /** Whether an event is accepted, for every event and every store with the invariants. */
  lemma HandleIff(env: Env, st: Store, ev: Event)
    requires Good(st) && AllOk(st.leases) && Timely(st.leases, env.now)
    ensures Handle(env, st, ev).Ok? ==> Permits(env, st, ev)
    ensures Permits(env, st, ev) && Supplied(env, st, ev) ==> Handle(env, st, ev).Ok?
  {
    hide Indexed, AllOk, Timely, MayFund, MayCreate, MayAnswer, MayCancel, MayClose, MayWithdraw, MaySetDomain, MaySetParams, ActsFor, Trusted,
         FundCredit, CreateLease, CreateLeaseForTenant, AcknowledgeLease, RejectLease, CancelLease, CloseLease, WithdrawLeases, WithdrawAll,
         SetItemCustomDomain, UpdateParams, EndBlock, UuidV7.IsValidUUIDv7, Edited;
    match ev
    case Fund(sender, tenant, amount) => FundIff(st, sender, tenant, amount);
    case Create(tenant, inputs, metaHash) => CreateIff(env, st, tenant, inputs, metaHash);
    case CreateFor(sender, tenant, inputs, metaHash) => CreateForIff(env, st, sender, tenant, inputs, metaHash);
    case Acknowledge(sender, us) => AnswerIff(env, st, sender, us, "");
    case Reject(sender, us, reason) => AnswerIff(env, st, sender, us, reason);
    case Cancel(tenant, us) => CancelIff(env, st, tenant, us);
    case Close(sender, us, reason) => CloseIff(env, st, sender, us, reason);
    case Withdraw(sender, us) => WithdrawIff(env, st, sender, us);
    case Sweep(sender, provider, limit) => SweepIff(env, st, sender, provider, limit);
    case SetDomain(sender, u, service, domain) => SetDomainIff(env, st, sender, u, service, domain);
    case SetParams(sender, params) => ParamsIff(env, st, sender, params);
    case BlockEnd => BlockNeverFails(env, st);
    case External(_) =>
  }
}
