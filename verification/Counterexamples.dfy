/** Promises that the code does not keep without the conditions under which they are proved
    elsewhere, each with a store that the code can hold: the import of a genesis that
    validation accepts. */
module Counterexamples {
  import opened Coins
  import opened Types
  import opened Reservations
  import opened Accrual
  import opened DomainIndex
  import opened Names
  import opened Sums
  import opened Ledger
  import opened Invariants
  import opened Reachable
  import opened Payments
  import opened Lifetime
  import opened Billing
  import opened Guarantees
  import opened Structure
  import opened Genesis
  import opened Success
  import opened Conservation
  import opened MinimumDuration
  import opened Overrun
  import Text
  import UuidV7

  // ---------------------------------------------------------------- small genesis states

  const TENANT := Account("tenant")
  const SUPPLIER := Account("supplier")
  const AUTHORITY := Account("authority")
  const DENOM := "umfx"

  function Id(k: nat): Uuid { UuidV7.Format(UuidV7.Layout(0, k, 0)) }

  lemma IdIsValid(k: nat)
    ensures UuidV7.IsValidUUIDv7(Id(k))
  {
    UuidV7.GeneratedIsValid(0, k, 0);
  }

  lemma IdsDiffer(i: nat, j: nat)
    requires i < j < 4096
    ensures Id(i) != Id(j)
  {
    if Id(i) == Id(j) {
      UuidV7.GeneratedIsInjective(0, i, 0, 0, j, 0);
    }
  }

  function ProviderId(): string { Id(1000) }

  function SkuId(): string { Id(2000) }

  function SomeParams(minLeaseDuration: nat): Params {
    Params(100, [], 20, minLeaseDuration, 10, 1800, [])
  }

  function SomeEnv(now: Time, entropy: UuidV7.Entropy): Env {
    Env(now,
        Catalog(map[SkuId() := Sku(ProviderId(), true, PerHour, Coin(DENOM, 3600))],
                map[ProviderId() := Provider(SUPPLIER, SUPPLIER, true)]),
        AUTHORITY, entropy)
  }

  /** One unit of one SKU at one token a second. */
  function SomeItems(): seq<LeaseItem> { [LeaseItem(SkuId(), 1, Coin(DENOM, 1), "", "")] }

  /** A lease pending or active since `at`. */
  function SomeLease(k: nat, active: bool, at: Time, duration: nat): Lease {
    Lease(Id(k), TENANT, ProviderId(), SomeItems(), if active then Active else Pending, at, None, at,
          if active then Some(at) else None, None, "", None, "", [], duration)
  }

  lemma EnvNow(now: Time, entropy: UuidV7.Entropy)
    ensures SomeEnv(now, entropy).now == now && SomeEnv(now, entropy).authority == AUTHORITY
  {
  }

  lemma SomeRate(d: string)
    ensures Rate(SomeItems(), d) == if d == DENOM then 1 else 0
  {
    assert SomeItems()[..0] == [];
  }

  lemma SomeReservation(k: nat, active: bool, at: Time, duration: nat, min: nat, d: string)
    ensures AmountOf(Reservation(SomeLease(k, active, at, duration), min), d) ==
            if d == DENOM then (if duration == 0 then min else duration) else 0
  {
    hide Rate, Reservation, Id;
    SomeRate(d);
    ReservationAmount(SomeLease(k, active, at, duration), min, d);
  }

  lemma DenomIsValid()
    ensures ValidDenom(DENOM)
  {
    assert DENOM[0] == 'u' && DENOM[1] == 'm' && DENOM[2] == 'f' && DENOM[3] == 'x';
  }

  lemma SomeLeaseIsOk(k: nat, active: bool, at: Time, duration: nat)
    ensures LeaseOk(SomeLease(k, active, at, duration))
    ensures LeaseValid(SomeParams(3600), SomeLease(k, active, at, duration))
  {
    hide UuidV7.IsValidUUIDv7, Id, ValidDenom, ValidFqdn, ValidLabel;
    IdIsValid(k);
    IdIsValid(1000);
    IdIsValid(2000);
    DenomIsValid();
    var l := SomeLease(k, active, at, duration);
    assert ItemOk(l.items[0]);
  }

  lemma SomeLeaseClaimsNothing(k: nat, active: bool, at: Time, duration: nat)
    ensures ByService(SomeItems()) == map[] && Claims(SomeLease(k, active, at, duration)) == map[]
  {
    assert SomeItems()[..0] == [];
  }

  function SomeAccount(active: nat, pending: nat, reserved: nat): CreditAccount
    requires reserved > 0
  {
    CreditAccount(TENANT, Credit(TENANT), active, pending, map[DENOM := reserved])
  }

  function CreditOf(amount: nat): Bank
    requires amount > 0
  {
    map[Credit(TENANT) := map[DENOM := amount]]
  }

  /** A chain that has not started, with a funded credit address. */
  function Unstarted(amount: nat): Store
    requires amount > 0
  {
    EmptyStore(SomeParams(3600), CreditOf(amount))
  }

  lemma HoldingAtStart(amount: nat)
    requires amount > 0
    ensures Holding(CreditOf(amount), Credit(TENANT), DENOM) == amount
  {
  }

  lemma SomeParamsAreValid(min: nat)
    requires 0 < min <= 7200
    ensures ValidParams(SomeParams(min))
  {
  }

  lemma SumListOfOne(l: Lease, w: Lease -> nat)
    ensures SumList([l], w) == w(l)
  {
    assert [l][..0] == [];
  }

  lemma SumListOfTwo(a: Lease, b: Lease, w: Lease -> nat)
    ensures SumList([a, b], w) == w(a) + w(b)
  {
    assert [a, b][..1] == [a];
    SumListOfOne(a, w);
  }

  lemma SomeLeaseIsKnown(k: nat, active: bool, at: Time, duration: nat, now: Time, entropy: UuidV7.Entropy)
    ensures Known(SomeEnv(now, entropy).catalog, SomeLease(k, active, at, duration))
  {
    hide Id;
  }

  lemma SomeLeaseShape(k: nat, active: bool, at: Time, duration: nat)
    ensures var l := SomeLease(k, active, at, duration);
            && l.uuid == Id(k) && l.tenant == TENANT && l.providerUuid == ProviderId() && l.items == SomeItems()
            && l.state == (if active then Active else Pending) && l.lastSettledAt == at && l.createdAt == at
            && l.minLeaseDurationAtCreation == duration && (active ==> l.acknowledgedAt == Some(at)) && l.closedAt == None
  {
    hide Id, SomeItems;
  }

  /** Leases without domains import one after the other. */
  lemma {:induction false} LeasesImport(catalog: Catalog, st: Store, ls: seq<Lease>)
    requires Exact(st.domainIndex, st.leases)
    requires forall l :: l in ls ==> Known(catalog, l) && Claims(l) == map[]
    ensures ImportLeases(catalog, st, ls).Ok? && ImportLeases(catalog, st, ls).value.bank == st.bank
    ensures Exact(ImportLeases(catalog, st, ls).value.domainIndex, ImportLeases(catalog, st, ls).value.leases)
    decreases |ls|
  {
    hide Exact, Claims, SetLease, Known;
    if ls != [] {
      var n := |ls| - 1;
      assert ls[n] in ls && forall l :: l in ls[..n] ==> l in ls;
      LeasesImport(catalog, st, ls[..n]);
      RewriteSucceeds(ImportLeases(catalog, st, ls[..n]).value, ls[n]);
    }
  }

  /** A genesis of such leases imports, and leaves the bank alone. */
  lemma GenesisImports(now: Time, entropy: UuidV7.Entropy, amount: nat, g: GenesisState)
    requires amount > 0 && TimesOk(g.leases, now)
    requires forall l :: l in g.leases ==> Known(SomeEnv(now, entropy).catalog, l) && Claims(l) == map[]
    ensures InitGenesis(SomeEnv(now, entropy), Unstarted(amount), g).Ok?
    ensures InitGenesis(SomeEnv(now, entropy), Unstarted(amount), g).value.bank == CreditOf(amount)
  {
    hide Known, Claims, SomeEnv, ImportLeases, ImportAccounts, TimesOk;
    EnvNow(now, entropy);
    var env, st := SomeEnv(now, entropy), Unstarted(amount).(params := g.params);
    assert Exact(st.domainIndex, st.leases);
    LeasesImport(env.catalog, st, g.leases);
    AccountsKeepBank(ImportLeases(env.catalog, st, g.leases).value, g.creditAccounts);
  }

  lemma {:induction false} AccountsKeepBank(st: Store, cas: seq<CreditAccount>)
    ensures ImportAccounts(st, cas).bank == st.bank
    decreases |cas|
  {
    if cas != [] {
      AccountsKeepBank(st, cas[..|cas| - 1]);
    }
  }

  // ---------------------------------------------------------------- legacy leases and parameter changes

  /** One active lease from before the creation-time duration was stored. */
  function LegacyGenesis(): GenesisState {
    GenesisState(SomeParams(3600), [SomeLease(0, true, 0, 0)], [SomeAccount(1, 0, 3600)], 1)
  }

  lemma LegacyGenesisAgrees()
    ensures AccountAgrees(LegacyGenesis(), SomeAccount(1, 0, 3600))
  {
    hide SumList, Reservation, Id;
    var l := SomeLease(0, true, 0, 0);
    SumListOfOne(l, ActiveOf(TENANT));
    SumListOfOne(l, PendingOf(TENANT));
    forall d ensures AmountOf(SomeAccount(1, 0, 3600).reservedAmounts, d) == SumList([l], ReservedOf(TENANT, d, 3600)) {
      SumListOfOne(l, ReservedOf(TENANT, d, 3600));
      SomeReservation(0, true, 0, 0, 3600, d);
    }
  }

  lemma LegacyGenesisIsCrossChecked()
    ensures CrossChecked(LegacyGenesis())
  {
    hide AccountAgrees, Reservation, Id, SomeItems;
    LegacyGenesisAgrees();
    var g := LegacyGenesis();
    assert g.creditAccounts[0].tenant == TENANT;
  }

  lemma SomeAccountIsOk(active: nat, pending: nat, reserved: nat)
    requires reserved > 0
    ensures AccountOk(SomeAccount(active, pending, reserved))
  {
    DenomIsValid();
    hide ValidDenom;
  }

  lemma LegacyGenesisIsValid()
    ensures Valid(LegacyGenesis())
  {
    hide ValidParams, LeaseValid, CrossChecked, AccountOk, SomeLease, SomeAccount, SomeParams;
    SomeParamsAreValid(3600);
    SomeLeaseIsOk(0, true, 0, 0);
    SomeAccountIsOk(1, 0, 3600);
    LegacyGenesisIsCrossChecked();
  }

  lemma LegacyGenesisImports(now: Time, entropy: UuidV7.Entropy, amount: nat)
    requires now >= 0 && amount > 0
    ensures InitGenesis(SomeEnv(now, entropy), Unstarted(amount), LegacyGenesis()).Ok?
    ensures InitGenesis(SomeEnv(now, entropy), Unstarted(amount), LegacyGenesis()).value.bank == CreditOf(amount)
  {
    hide Known, Claims, SomeEnv, InitGenesis, SomeLease, Unstarted, CreditOf;
    SomeLeaseShape(0, true, 0, 0);
    SomeLeaseIsKnown(0, true, 0, 0, now, entropy);
    SomeLeaseClaimsNothing(0, true, 0, 0);
    GenesisImports(now, entropy, amount, LegacyGenesis());
  }

  /** A chain that starts from a valid genesis with a legacy lease keeps the documented
      reservation invariant, and loses it with an accepted parameter update. */
  lemma ParameterChangeBreaksReservations(entropy: UuidV7.Entropy)
    ensures Valid(LegacyGenesis()) && InitGenesis(SomeEnv(0, entropy), Unstarted(1), LegacyGenesis()).Ok?
    ensures var st := InitGenesis(SomeEnv(0, entropy), Unstarted(1), LegacyGenesis()).value;
            var r := UpdateParams(SomeEnv(0, entropy), st, AUTHORITY, SomeParams(7200));
            && Good(st) && AllOk(st.leases) && ReservedExactly(st)
            && r.Ok? && Good(r.value.st) && !ReservedExactly(r.value.st)
  {
    hide Valid, InitGenesis, Reserves, NoLegacy, Priced, LeaseMap, AllOk, ValidParams, Blank, Exact, SkuExact, Counted, Keyed, Sheltered, LegacyGenesis, Unstarted, SomeEnv;
    LegacyGenesisIsValid();
    LegacyGenesisImports(0, entropy, 1);
    var env, blank, g := SomeEnv(0, entropy), Unstarted(1), LegacyGenesis();
    EnvNow(0, entropy);
    UnstartedIsBlank(1);
    ValidGenesisIsGood(env, g, blank);
    var st := InitGenesis(env, blank, g).value;
    LegacyIsPriced();
    LegacyShape();
    SomeParamsAreValid(7200);
    ParamsKeepGood(st, SomeParams(7200));
    ParamsChangeKeepsReserved(st, 7200);
  }

  lemma LegacyShape()
    ensures LegacyGenesis().params == SomeParams(3600)
  {
  }

  lemma LegacyIsPriced()
    ensures Priced(LeaseMap(LegacyGenesis().leases)) && !NoLegacy(LeaseMap(LegacyGenesis().leases))
  {
    var l := SomeLease(0, true, 0, 0);
    assert LegacyGenesis().leases[..0] == [];
    assert LeaseMap(LegacyGenesis().leases) == map[Id(0) := l];
    SomeRate(DENOM);
    hide Rate, Id;
    assert Id(0) in LeaseMap(LegacyGenesis().leases);
  }

  // ---------------------------------------------------------------- the query beyond the limit

  /** Beyond the accrual limit a withdrawal takes all the credit, and the query reports nothing. */
  lemma BeyondTheLimitTheyDiffer(env: Env, st: Store, sender: Address, u: Uuid)
    requires Indexed(st) && UuidV7.IsValidUUIDv7(u) && u in st.leases && st.leases[u].state == Active
    requires Settleable(env, st.leases[u]) && !WithinLimit(st.leases[u], env.now) && Available(st.bank, st.leases[u]) != NO_COINS
    requires AuthorizeProvider(env, sender, st.leases[u].providerUuid).Ok?
    ensures var r := WithdrawLeases(env, st, sender, [u]);
            r.Ok? && TotalOf(r.value.receipts) != Withdrawable(st.bank, st.leases[u], env.now)
  {
    hide Indexed, UuidV7.IsValidUUIDv7, Batch, Finish, Settleable, Settle, Available, Withdrawable, TotalOf, AuthorizeProvider, TimelyLease;
    var l := st.leases[u];
    FiledUnderKey(st, u);
    SettleableIs(env, l);
    assert [u][..0] == [];
    OverLimitCloses(st.bank, l, env.now);
    SettleSucceeds(st.bank, env.catalog, l, env.now, true);
    FinishSucceeds(st, env, l, true, CREDIT_EXHAUSTED, false);
    FinishReceipt(st, env, l, true, CREDIT_EXHAUSTED, false);
    BatchOfOne(OpWithdraw, env, st, u);
    assert One(OpWithdraw, env, st, u) == Finish(st, env, l, true, CREDIT_EXHAUSTED, false);
    SingleBatchIsAccepted(env, st, sender, u);
    hide One, WithdrawProvider, CheckBatch;
    assert WithdrawLeases(env, st, sender, [u]).Ok?;
    QueryAgreesWithWithdrawal(env, st, sender, u);
  }

  lemma SingleBatchIsAccepted(env: Env, st: Store, sender: Address, u: Uuid)
    requires UuidV7.IsValidUUIDv7(u) && u in st.leases && AuthorizeProvider(env, sender, st.leases[u].providerUuid).Ok?
    ensures CheckBatch([u]).Ok? && WithdrawProvider(env, st, sender, [u]).Ok?
  {
    hide UuidV7.IsValidUUIDv7, AuthorizeProvider;
    assert [u][..0] == [];
  }

  lemma SettleableIs(env: Env, l: Lease)
    requires Settleable(env, l)
    ensures l.providerUuid in env.catalog.providers && l.lastSettledAt <= env.now
  {
  }

  lemma OverLimitCloses(bank: Bank, l: Lease, now: Time)
    requires l.state == Active && l.lastSettledAt <= now && !WithinLimit(l, now)
    ensures ShouldAutoClose(bank, l, now) == Ok(true)
  {
    hide Accrued, Available;
    SaturationIsHarmless(now, l.lastSettledAt);
  }

  const CENTURY := 101 * 365 * 24 * 60 * 60 * NANOS_PER_SECOND

  /** Such a store: the legacy genesis, untouched for 101 years. */
  lemma QueryDisagreesAfterACentury(entropy: UuidV7.Entropy)
    ensures var env := SomeEnv(CENTURY, entropy);
            && InitGenesis(env, Unstarted(5), LegacyGenesis()).Ok?
            && var st := InitGenesis(env, Unstarted(5), LegacyGenesis()).value;
            && Id(0) in st.leases
            && var r := WithdrawLeases(env, st, SUPPLIER, [Id(0)]);
            r.Ok? && TotalOf(r.value.receipts) != Withdrawable(st.bank, st.leases[Id(0)], CENTURY)
  {
    hide Valid, InitGenesis, ReservedExactly, AllOk, ValidParams, Indexed, LeaseMap, WithinLimit, Settleable, Available, WithdrawLeases, Withdrawable, TotalOf, UuidV7.IsValidUUIDv7, Id, LegacyGenesis, SomeEnv, SomeLease, CreditOf, AuthorizeProvider;
    LegacyGenesisIsValid();
    LegacyGenesisImports(CENTURY, entropy, 5);
    var env, blank, g := SomeEnv(CENTURY, entropy), Unstarted(5), LegacyGenesis();
    EnvNow(CENTURY, entropy);
    assert Blank(blank);
    ValidGenesisIsGood(env, g, blank);
    var st := InitGenesis(env, blank, g).value;
    LegacyLeaseIs();
    IdIsValid(0);
    CenturyFacts(entropy);
    BeyondTheLimitTheyDiffer(env, st, SUPPLIER, Id(0));
  }

  lemma CenturyFacts(entropy: UuidV7.Entropy)
    ensures var env, l := SomeEnv(CENTURY, entropy), SomeLease(0, true, 0, 0);
            && Settleable(env, l) && !WithinLimit(l, CENTURY) && Available(CreditOf(5), l) != NO_COINS
            && AuthorizeProvider(env, SUPPLIER, l.providerUuid).Ok? && l.state == Active
  {
    hide Id, SomeLease, SomeEnv, ProviderId, SomeItems, WithinLimit, Available;
    SomeLeaseShape(0, true, 0, 0);
    EnvNow(CENTURY, entropy);
    EnvProvider(CENTURY, entropy);
    CenturyOverflows(SomeLease(0, true, 0, 0));
    SomeCredit(SomeLease(0, true, 0, 0));
  }

  lemma CenturyOverflows(l: Lease)
    requires l.items == SomeItems() && l.lastSettledAt == 0
    ensures !WithinLimit(l, CENTURY)
  {
    hide Id;
  }

  lemma SomeCredit(l: Lease)
    requires l.items == SomeItems() && l.tenant == TENANT
    ensures Available(CreditOf(5), l) != NO_COINS
  {
    hide Id, Available, CreditOf, Holding;
    assert l.items[0] in l.items && DENOM in Denoms(l.items);
    AvailableAt(CreditOf(5), l, DENOM);
    HoldingAtStart(5);
    assert AmountOf(Available(CreditOf(5), l), DENOM) == 5;
  }

  lemma LegacyLeaseIs()
    ensures LeaseMap(LegacyGenesis().leases) == map[Id(0) := SomeLease(0, true, 0, 0)]
  {
    assert LegacyGenesis().leases[..0] == [];
  }

  // ---------------------------------------------------------------- one lease outruns its reservation

  const LATER := 5000 * NANOS_PER_SECOND

  /** A lease that has been active for 5000 seconds and a new one, each with 3600 reserved seconds. */
  function SharedGenesis(): GenesisState {
    GenesisState(SomeParams(3600), [SomeLease(0, true, 0, 3600), SomeLease(1, false, LATER, 3600)], [SomeAccount(1, 1, 7200)], 2)
  }

  lemma SharedGenesisAgrees()
    ensures AccountAgrees(SharedGenesis(), SomeAccount(1, 1, 7200))
  {
    hide SumList, Reservation, Id;
    var a, b := SomeLease(0, true, 0, 3600), SomeLease(1, false, LATER, 3600);
    SumListOfTwo(a, b, ActiveOf(TENANT));
    SumListOfTwo(a, b, PendingOf(TENANT));
    forall d ensures AmountOf(SomeAccount(1, 1, 7200).reservedAmounts, d) == SumList([a, b], ReservedOf(TENANT, d, 3600)) {
      SumListOfTwo(a, b, ReservedOf(TENANT, d, 3600));
      SomeReservation(0, true, 0, 3600, 3600, d);
      SomeReservation(1, false, LATER, 3600, 3600, d);
    }
  }

  lemma SharedGenesisIsCrossChecked()
    ensures CrossChecked(SharedGenesis())
  {
    hide AccountAgrees, Reservation, Id, SomeItems;
    SharedGenesisAgrees();
    var g := SharedGenesis();
    assert g.creditAccounts[0].tenant == TENANT;
  }

  lemma TwoAreValid(params: Params, a: Lease, b: Lease)
    requires LeaseValid(params, a) && LeaseValid(params, b) && a.uuid != b.uuid
    ensures DistinctLeases([a, b]) && forall i :: 0 <= i < |[a, b]| ==> LeaseValid(params, [a, b][i])
  {
    hide LeaseValid;
  }

  lemma SharedGenesisIsValid()
    ensures Valid(SharedGenesis())
  {
    hide ValidParams, LeaseValid, CrossChecked, AccountOk, SomeLease, SomeAccount, SomeParams, Id;
    SomeParamsAreValid(3600);
    SomeLeaseShape(0, true, 0, 3600);
    SomeLeaseShape(1, false, LATER, 3600);
    SomeLeaseIsOk(0, true, 0, 3600);
    SomeLeaseIsOk(1, false, LATER, 3600);
    SomeAccountIsOk(1, 1, 7200);
    SharedGenesisIsCrossChecked();
    IdsDiffer(0, 1);
    TwoAreValid(SomeParams(3600), SomeLease(0, true, 0, 3600), SomeLease(1, false, LATER, 3600));
    hide DistinctLeases;
  }

  lemma SharedLeases()
    ensures Id(0) != Id(1)
    ensures LeaseMap(SharedGenesis().leases) == map[Id(0) := SomeLease(0, true, 0, 3600), Id(1) := SomeLease(1, false, LATER, 3600)]
  {
    hide Id;
    IdsDiffer(0, 1);
    var ls := SharedGenesis().leases;
    assert ls[..1] == [SomeLease(0, true, 0, 3600)] && ls[..1][..0] == [];
  }

  lemma SharedGenesisImports(entropy: UuidV7.Entropy)
    ensures InitGenesis(SomeEnv(LATER, entropy), Unstarted(7200), SharedGenesis()).Ok?
    ensures InitGenesis(SomeEnv(LATER, entropy), Unstarted(7200), SharedGenesis()).value.bank == CreditOf(7200)
  {
    hide Known, Claims, SomeEnv, InitGenesis, SomeLease, Unstarted, CreditOf, SomeItems, Id;
    SomeLeaseShape(0, true, 0, 3600);
    SomeLeaseShape(1, false, LATER, 3600);
    SomeLeaseIsKnown(0, true, 0, 3600, LATER, entropy);
    SomeLeaseIsKnown(1, false, LATER, 3600, LATER, entropy);
    SomeLeaseClaimsNothing(0, true, 0, 3600);
    SomeLeaseClaimsNothing(1, false, LATER, 3600);
    GenesisImports(LATER, entropy, 7200, SharedGenesis());
  }

  lemma LaterSeconds()
    ensures Sub(LATER, 0) == LATER && Seconds(LATER) == 5000 && BilledSeconds(LATER) == 5000
  {
  }

  lemma SharedDue(l: Lease)
    requires l.items == SomeItems() && l.lastSettledAt == 0 && l.state == Active
    ensures AmountOf(Charge(l, LATER), DENOM) == 5000 && WithinLimit(l, SettleTime(l, LATER))
  {
    hide Rate, SomeItems, Accrued, Seconds, BilledSeconds, Sub;
    LaterSeconds();
    SomeRate(DENOM);
    DueAmount(l, LATER, DENOM);
  }

  lemma EnvProvider(now: Time, entropy: UuidV7.Entropy)
    ensures ProviderId() in SomeEnv(now, entropy).catalog.providers
    ensures SomeEnv(now, entropy).catalog.providers[ProviderId()] == Provider(SUPPLIER, SUPPLIER, true)
  {
    hide Id;
  }

  /** The first lease owes 5000 tokens. */
  lemma SharedCharge(entropy: UuidV7.Entropy)
    ensures var env, l := SomeEnv(LATER, entropy), SomeLease(0, true, 0, 3600);
            && Charged(OpWithdraw, env, l) && AmountOf(Charge(l, LATER), DENOM) == 5000
  {
    hide Id, SomeLease, SomeEnv, Charge, WithinLimit, ProviderId, SomeItems, SettleTime;
    SomeLeaseShape(0, true, 0, 3600);
    EnvNow(LATER, entropy);
    EnvProvider(LATER, entropy);
    SharedDue(SomeLease(0, true, 0, 3600));
  }

  lemma SharedTimes(entropy: UuidV7.Entropy)
    ensures Timely(LeaseMap(SharedGenesis().leases), LATER) && NoLegacy(LeaseMap(SharedGenesis().leases))
  {
    SharedLeases();
    hide Id, LeaseMap, SomeItems;
  }

  lemma SomePromise(k: nat, active: bool, at: Time)
    ensures PromisedTo(TENANT, DENOM, 3600, [])(SomeLease(k, active, at, 3600)) == 3600
  {
    hide Rate, SomeLease, Id, SomeItems;
    SomeLeaseShape(k, active, at, 3600);
    SomeRate(DENOM);
  }

  lemma SumOfTwo(u: Uuid, a: Lease, v: Uuid, b: Lease, w: Lease -> nat)
    requires u != v
    ensures Sum(map[u := a, v := b], w) == w(a) + w(b)
  {
    hide Sum;
    var none: map<Uuid, Lease> := map[];
    SumZero(none, w);
    SumUpdate(none, w, u, a);
    SumUpdate(none[u := a], w, v, b);
    assert none[u := a][v := b] == map[u := a, v := b];
  }

  lemma SharedPromises()
    ensures Sum(LeaseMap(SharedGenesis().leases), PromisedTo(TENANT, DENOM, 3600, [])) == 7200
  {
    hide Id, LeaseMap, SharedGenesis, Sum, PromisedTo, SomeLease;
    SharedLeases();
    SomePromise(0, true, 0);
    SomePromise(1, false, LATER);
    SumOfTwo(Id(0), SomeLease(0, true, 0, 3600), Id(1), SomeLease(1, false, LATER, 3600), PromisedTo(TENANT, DENOM, 3600, []));
  }

  /** The second lease's 3600 reserved seconds were covered, and after the withdrawal from the
      first one 2200 tokens are left for them, although not one of them has been charged. */
  lemma OverrunDrainsOthers(entropy: UuidV7.Entropy)
    ensures var env := SomeEnv(LATER, entropy);
            && Valid(SharedGenesis()) && InitGenesis(env, Unstarted(7200), SharedGenesis()).Ok?
            && var st := InitGenesis(env, Unstarted(7200), SharedGenesis()).value;
            && Good(st) && ReservedExactly(st) && NoLegacy(st.leases) && Timely(st.leases, LATER) && Backed(st, [], TENANT, DENOM)
            && var r := WithdrawLeases(env, st, SUPPLIER, [Id(0)]);
            && r.Ok? && Id(1) in r.value.st.leases && r.value.st.leases[Id(1)].state == Pending
            && Holding(r.value.st.bank, Credit(TENANT), DENOM) == 2200
            && SecondsLeft(r.value.st.leases[Id(1)], r.value.st.params.minLeaseDuration, r.value.receipts) == 3600
            && !Backed(r.value.st, r.value.receipts, TENANT, DENOM) && !FitsBatch(OpWithdraw, env, st, [], [Id(0)], TENANT, DENOM)
  {
    hide Valid, InitGenesis, Reserves, NoLegacy, LeaseMap, AllOk, ValidParams, Blank, Indexed, SharedGenesis, Unstarted, Timely, Batch, Charged, Holding, Sum, PromisedTo, Id, Charge, SomeEnv, SomeLease, ChargeSum, Chargeable, SecondsOf, CreditOf, FitsBatch, Settles;
    var env, blank, g := SomeEnv(LATER, entropy), Unstarted(7200), SharedGenesis();
    EnvNow(LATER, entropy);
    SharedGenesisIsValid();
    SharedGenesisImports(entropy);
    UnstartedIsBlank(7200);
    ValidGenesisIsGood(env, g, blank);
    var st := InitGenesis(env, blank, g).value;
    SharedLeases();
    SharedTimes(entropy);
    SharedPromises();
    SharedShape();
    HoldingAtStart(7200);
    SharedCharge(entropy);
    assert Distinct([Id(0)]);
    ChargedBatchDraws(OpWithdraw, env, st, [Id(0)], TENANT, DENOM);
    ChargeOfOne(st.leases, Id(0), LATER, DENOM);
    SecondIsUntouched(env, st);
    MovedMeansReceipts(OpWithdraw, env, st, [Id(0)], Credit(TENANT), DENOM);
    IdIsValid(0);
    SupplierIsAuthorized(entropy);
    hide UuidV7.IsValidUUIDv7, CheckBatch, WithdrawProvider, AuthorizeProvider;
    SingleBatchIsAccepted(env, st, SUPPLIER, Id(0));
    SettlesAlone(env, st, Id(0));
    BatchBackedIff(OpWithdraw, env, st, [], [Id(0)], TENANT, DENOM);
    var receipts := Batch(OpWithdraw, env, st, [Id(0)]).value.receipts;
    assert [] + receipts == receipts;
  }

  lemma SettlesAlone(env: Env, st: Store, u: Uuid)
    requires u in st.leases && Charged(OpWithdraw, env, st.leases[u]) && Batch(OpWithdraw, env, st, [u]).Ok?
    ensures Settles(OpWithdraw, env, st, [u])
  {
    hide Batch, Chargeable, Settleable;
  }

  lemma SupplierIsAuthorized(entropy: UuidV7.Entropy)
    ensures AuthorizeProvider(SomeEnv(LATER, entropy), SUPPLIER, SomeLease(0, true, 0, 3600).providerUuid).Ok?
  {
    hide Id, SomeLease, SomeEnv, ProviderId;
    SomeLeaseShape(0, true, 0, 3600);
    EnvProvider(LATER, entropy);
  }

  lemma MovedMeansReceipts(op: Op, env: Env, st: Store, us: seq<Uuid>, a: Address, d: string)
    requires Batch(op, env, st, us).Ok? && Holding(Batch(op, env, st, us).value.st.bank, a, d) != Holding(st.bank, a, d)
    ensures Batch(op, env, st, us).value.receipts != []
  {
    hide Batch, Holding, SameSupply;
    BatchIsAccounted(op, env, st, us);
    assert PaidBy([], a, d) == 0 && ReceivedBy([], a, d) == 0;
  }

  lemma UnstartedIsBlank(amount: nat)
    requires amount > 0
    ensures Blank(Unstarted(amount)) && Unstarted(amount).bank == CreditOf(amount)
  {
  }

  lemma SharedShape()
    ensures SharedGenesis().params == SomeParams(3600) && SomeParams(3600).minLeaseDuration == 3600
    ensures SomeLease(0, true, 0, 3600).tenant == TENANT
  {
  }

  lemma SecondIsUntouched(env: Env, st: Store)
    requires Indexed(st) && Batch(OpWithdraw, env, st, [Id(0)]).Ok? && Id(0) != Id(1) && st.params.minLeaseDuration == 3600
    requires Id(1) in st.leases && st.leases[Id(1)] == SomeLease(1, false, LATER, 3600)
    ensures var out := Batch(OpWithdraw, env, st, [Id(0)]).value;
            && Id(1) in out.st.leases && out.st.leases[Id(1)] == st.leases[Id(1)] && out.st.leases[Id(1)].state == Pending
            && SecondsLeft(out.st.leases[Id(1)], out.st.params.minLeaseDuration, out.receipts) == 3600
            && Sum(out.st.leases, PromisedTo(TENANT, DENOM, out.st.params.minLeaseDuration, out.receipts)) >= 3600
  {
    hide Indexed, ReservedExactly, Batch, OnlyEvolved, ReceiptOf, Sum, Id, SomeLease, SecondsLeft, PromisedTo;
    SomeLeaseShape(1, false, LATER, 3600);
    BatchLeavesOthers(OpWithdraw, env, st, [Id(0)], Id(1));
    BatchIsKept(OpWithdraw, env, st, [Id(0)]);
    BatchReceipts(OpWithdraw, env, st, [Id(0)]);
    var out := Batch(OpWithdraw, env, st, [Id(0)]).value;
    UnchargedPromise(out.receipts);
    SumBound(out.st.leases, PromisedTo(TENANT, DENOM, 3600, out.receipts), Id(1));
  }

  lemma UnchargedPromise(rs: seq<Receipt>)
    requires forall r :: r in rs ==> r.uuid != Id(1)
    ensures var l := SomeLease(1, false, LATER, 3600);
            SecondsLeft(l, 3600, rs) == 3600 && PromisedTo(TENANT, DENOM, 3600, rs)(l) == 3600
  {
    hide Rate, SomeLease, Id, SomeItems, SecondsOf;
    SomeLeaseShape(1, false, LATER, 3600);
    SomeRate(DENOM);
    NoSecondsElsewhere(rs, Id(1));
  }

  // ---------------------------------------------------------------- suffixes reserved after a claim

  function WithSuffix(p: Params, suffix: string): Params {
    p.(reservedDomainSuffixes := p.reservedDomainSuffixes + [suffix])
  }

  lemma OwnSuffixHits(d: string, suffixes: seq<string>)
    ensures Reserved(d, suffixes + ["." + d])
  {
    var s := "." + d;
    assert ToLower(s)[1..] == ToLower(d);
    assert (suffixes + [s])[|suffixes|] == s;
    assert HitsSuffix(d, s);
  }

  lemma WithSuffixIsValid(p: Params, d: string)
    requires ValidParams(p) && ValidFqdn(d) && "." + d !in p.reservedDomainSuffixes
    ensures ValidParams(WithSuffix(p, "." + d))
  {
    assert |d| > 0;
    hide ValidFqdn;
    assert ("." + d)[1..] == d;
  }

  /** Whenever a stored item carries a domain, the authority can reserve it afterwards, and no
      export of the store is then accepted by validation. */
  lemma LateSuffixInvalidatesExport(env: Env, st: Store, u: Uuid, i: nat, g: GenesisState)
    requires u in st.leases && i < |st.leases[u].items| && ValidFqdn(st.leases[u].items[i].customDomain)
    requires ValidParams(st.params) && "." + st.leases[u].items[i].customDomain !in st.params.reservedDomainSuffixes
    requires IsExport(st.(params := WithSuffix(st.params, "." + st.leases[u].items[i].customDomain)), g)
    ensures UpdateParams(env, st, env.authority, g.params) == Ok(Out(st.(params := g.params), []))
    ensures !Valid(g)
  {
    var d := st.leases[u].items[i].customDomain;
    assert |d| > 0;
    hide ValidFqdn, ValidParams, Reserved, LeaseValid, CrossChecked, DistinctLeases, DistinctAccounts, IsExport, AccountOk;
    WithSuffixIsValid(st.params, d);
    OwnSuffixHits(d, st.params.reservedDomainSuffixes);
    var j := ExportLists(st.(params := WithSuffix(st.params, "." + d)), g, u);
    ReservedIsInvalid(g.params, st.leases[u], i);
  }

  lemma ExportLists(st: Store, g: GenesisState, u: Uuid) returns (j: nat)
    requires IsExport(st, g) && u in st.leases
    ensures j < |g.leases| && g.leases[j] == st.leases[u] && g.params == st.params
  {
    hide LeaseMap, AccountMap, Text.Increasing, Text.Sorted, DistinctAccounts;
    LeaseMapKeys(g.leases);
    LeaseMapHas(g.leases);
    var i :| 0 <= i < |g.leases| && g.leases[i].uuid == u;
    j := i;
  }

  lemma ReservedIsInvalid(params: Params, l: Lease, i: nat)
    requires i < |l.items| && l.items[i].customDomain != "" && Reserved(l.items[i].customDomain, params.reservedDomainSuffixes)
    ensures !LeaseValid(params, l)
  {
    hide Reserved, LeaseOk;
  }
}
