/** The invariants over whole messages and whole runs. */
module Reachable {
  import opened Coins
  import opened Types
  import opened Reservations
  import opened DomainIndex
  import opened Sums
  import opened Ledger
  import opened Invariants
  import opened Names
  import UuidV7

  // ---------------------------------------------------------------- batches

  /** What a batch over the leases `us` keeps. */
  ghost predicate KeptAll(st: Store, us: seq<Uuid>, st': Store) {
    && Indexed(st') && (ReservedExactly(st) ==> ReservedExactly(st')) && st'.params == st.params
    && st'.sequence == st.sequence
    && OnlyEvolved(st.leases, us, st'.leases)
  }

  predicate OnlyEvolved(leases: map<Uuid, Lease>, us: seq<Uuid>, leases': map<Uuid, Lease>) {
    && leases'.Keys == leases.Keys
    && (forall u :: u in leases ==> EvolvesStar(leases[u], leases'[u]) && (u !in us ==> leases'[u] == leases[u]))
  }

  /** The transitive closure of the lifecycle. */
  predicate EvolvesStar(l: Lease, l': Lease) {
    SameContract(l, l') &&
    (MayBecome(l.state, l'.state) || (l.state == Pending && l'.state == Closed))
  }

  lemma OnlyEvolvedSnoc(a: map<Uuid, Lease>, us: seq<Uuid>, b: map<Uuid, Lease>, u: Uuid, c: map<Uuid, Lease>)
    requires OnlyEvolved(a, us, b)
    requires c == b || (u in b && u in c && c == b[u := c[u]] && Evolves(b[u], c[u]))
    ensures OnlyEvolved(a, us + [u], c)
  {
    forall v | v in a ensures v in c && EvolvesStar(a[v], c[v]) && (v !in us + [u] ==> c[v] == a[v]) {
      assert v in us ==> v in us + [u];
      assert u in us + [u];
    }
  }

  lemma {:induction false} BatchIsKept(op: Op, env: Env, st: Store, us: seq<Uuid>)
    requires Indexed(st) && Batch(op, env, st, us).Ok?
    ensures KeptAll(st, us, Batch(op, env, st, us).value.st)
    decreases |us|
  {
    hide Indexed, ReservedExactly, One, EvolvesStar, Evolves;
    if us == [] {
      AllSelfEvolve(st.leases);
    } else {
      var n := |us| - 1;
      var before := Batch(op, env, st, us[..n]).value;
      BatchIsKept(op, env, st, us[..n]);
      OneIsKept(op, env, before.st, us[n]);
      var last := One(op, env, before.st, us[n]).value;
      OnlyEvolvedSnoc(st.leases, us[..n], before.st.leases, us[n], last.st.leases);
      assert us[..n] + [us[n]] == us;
    }
  }

  lemma AllSelfEvolve(leases: map<Uuid, Lease>)
    ensures OnlyEvolved(leases, [], leases)
  {
  }

  // ---------------------------------------------------------------- lease creation

  lemma NewLeaseClaimsNothing(catalog: Catalog, inputs: seq<LeaseItemInput>)
    requires PriceItems(catalog, inputs).Ok?
    ensures ByService(PriceItems(catalog, inputs).value.items) == map[]
    decreases |inputs|
  {
    if inputs != [] {
      var n := |inputs| - 1;
      NewLeaseClaimsNothing(catalog, inputs[..n]);
      var items := PriceItems(catalog, inputs).value.items;
      assert items[..|items| - 1] == PriceItems(catalog, inputs[..n]).value.items;
    }
  }

  lemma FreshKeepsSkus(st: Store, l: Lease, st': Store)
    requires SkuExact(st.skuIndex, st.leases) && l.uuid !in st.leases
    requires st'.leases == st.leases[l.uuid := l] && st'.skuIndex == st.skuIndex + SkuEntries(l)
    ensures SkuExact(st'.skuIndex, st'.leases)
  {
    hide Uses, SkuEntries;
    forall k, u ensures (k, u) in st'.skuIndex <==> u in st'.leases && Uses(st'.leases[u], k) {
      SkuEntriesAreUses(l, k, u);
    }
  }

  lemma FreshCounts(leases: map<Uuid, Lease>, l: Lease, accounts: map<Address, CreditAccount>, ca: CreditAccount)
    requires Counted(leases, accounts) && l.uuid !in leases && l.state == Pending && l.tenant in accounts
    requires ca.pendingLeaseCount == accounts[l.tenant].pendingLeaseCount + 1
    requires ca.activeLeaseCount == accounts[l.tenant].activeLeaseCount
    ensures Counted(leases[l.uuid := l], accounts[l.tenant := ca])
  {
    hide Sum;
    var accounts' := accounts[l.tenant := ca];
    forall t | t in accounts'
      ensures accounts'[t].activeLeaseCount == Sum(leases[l.uuid := l], ActiveOf(t))
      ensures accounts'[t].pendingLeaseCount == Sum(leases[l.uuid := l], PendingOf(t))
    {
      SumUpdate(leases, ActiveOf(t), l.uuid, l);
      SumUpdate(leases, PendingOf(t), l.uuid, l);
    }
  }

  lemma FreshReserves(leases: map<Uuid, Lease>, l: Lease, accounts: map<Address, CreditAccount>, ca: CreditAccount, min: nat)
    requires Reserves(leases, accounts, min) && l.uuid !in leases && l.state == Pending && l.tenant in accounts
    requires ca.reservedAmounts == Add(accounts[l.tenant].reservedAmounts, Reservation(l, min))
    ensures Reserves(leases[l.uuid := l], accounts[l.tenant := ca], min)
  {
    hide Sum, Reservation;
    var accounts' := accounts[l.tenant := ca];
    forall t, d | t in accounts'
      ensures AmountOf(accounts'[t].reservedAmounts, d) == Sum(leases[l.uuid := l], ReservedOf(t, d, min))
    {
      SumUpdate(leases, ReservedOf(t, d, min), l.uuid, l);
    }
  }

  /** The identifier the next creation will use. */
  function NextUuid(env: Env, st: Store): Uuid {
    UuidV7.Generate(env.now, env.entropy, st.sequence)
  }

  lemma GrownSize<K, V>(m: map<K, V>, k: K, v: V)
    requires k !in m
    ensures |m[k := v]| == |m| + 1
  {
    assert m[k := v].Keys == m.Keys + {k};
    assert |m[k := v]| == |m[k := v].Keys|;
    assert |m| == |m.Keys|;
  }

  lemma PlaceEffect(st: Store, l: Lease, ca: CreditAccount)
    requires Exact(st.domainIndex, st.leases) && st.creditIndex == CreditIndexOf(st.accounts)
    requires Claims(l) == map[] && ca.tenant in st.accounts
    ensures Place(st, l, ca).Ok?
    ensures var st' := Place(st, l, ca).value;
            && st'.leases == st.leases[l.uuid := l] && st'.accounts == st.accounts[ca.tenant := ca]
            && st'.creditIndex == st.creditIndex && st'.skuIndex == st.skuIndex + SkuEntries(l)
            && Exact(st'.domainIndex, st'.leases)
            && st'.params == st.params && st'.sequence == st.sequence + 1 && st'.bank == st.bank
  {
    hide Exact, SetLease, SkuEntries, CreditIndexOf, Claims;
    RewriteSucceeds(st.(sequence := st.sequence + 1), l);
    CreditIndexFollows(st.accounts, ca.tenant, ca);
  }

  lemma PlaceKeeps(st: Store, l: Lease, ca: CreditAccount)
    requires Indexed(st) && l.uuid !in st.leases && l.state == Pending && Claims(l) == map[]
    requires ca.tenant == l.tenant && l.tenant in st.accounts
    requires ca == Reserve(st.accounts[l.tenant], Reservation(l, st.params.minLeaseDuration))
    ensures Place(st, l, ca).Ok?
    ensures Indexed(Place(st, l, ca).value)
    ensures ReservedExactly(st) ==> ReservedExactly(Place(st, l, ca).value)
    ensures Place(st, l, ca).value.leases == st.leases[l.uuid := l]
    ensures Place(st, l, ca).value.params == st.params
    ensures Place(st, l, ca).value.sequence == st.sequence + 1
    ensures Place(st, l, ca).value.bank == st.bank
  {
    PlaceEffect(st, l, ca);
    assert ca.creditAddress == Credit(l.tenant) by {
      hide Exact, SkuExact, Sheltered, Counted, CreditIndexOf, LeasesFiled, Reservation;
    }
    hide Exact, SkuExact, Sheltered, Counted, Reserves, CreditIndexOf, LeasesFiled, AccountsFiled, SkuEntries, Place, Reservation, Claims;
    var st' := Place(st, l, ca).value;
    KeyedFollows(st, l, ca, st');
    FreshKeepsSkus(st, l, st');
    FreshCounts(st.leases, l, st.accounts, ca);
    ShelteredFollows(st, l, st');
    GrownSize(st.leases, l.uuid, l);
    if ReservedExactly(st) {
      FreshReserves(st.leases, l, st.accounts, ca, st.params.minLeaseDuration);
    }
  }

  /** The lease a successful creation writes. */
  lemma CreateWrites(env: Env, st: Store, tenant: Address, inputs: seq<LeaseItemInput>, metaHash: seq<int>) returns (l: Lease)
    requires CreateLease(env, st, tenant, inputs, metaHash).Ok?
    ensures tenant in st.accounts && PriceItems(env.catalog, inputs).Ok?
    ensures l == NewLease(env, st, tenant, PriceItems(env.catalog, inputs).value, metaHash)
    ensures var ca := Reserve(st.accounts[tenant], Scale(Rates(l.items), st.params.minLeaseDuration));
            Place(st, l, ca).Ok? && CreateLease(env, st, tenant, inputs, metaHash) == Ok(Out(Place(st, l, ca).value, []))
    ensures ByService(l.items) == map[]
  {
    hide CheckLeaseItems, Place, Rates, Scale, Free, UuidV7.Generate, PriceItems;
    l := NewLease(env, st, tenant, PriceItems(env.catalog, inputs).value, metaHash);
    NewLeaseClaimsNothing(env.catalog, inputs);
  }

  /** The lease is written as quoted, its reservation is added to the tenant's account, and the
      invariants are kept. */
  lemma CreateKeeps(env: Env, st: Store, tenant: Address, inputs: seq<LeaseItemInput>, metaHash: seq<int>) returns (l: Lease)
    requires Indexed(st) && NextUuid(env, st) !in st.leases && st.params.minLeaseDuration > 0
    requires CreateLease(env, st, tenant, inputs, metaHash).Ok?
    ensures PriceItems(env.catalog, inputs).Ok?
    ensures l == NewLease(env, st, tenant, PriceItems(env.catalog, inputs).value, metaHash)
    ensures var st' := CreateLease(env, st, tenant, inputs, metaHash).value.st;
            && Indexed(st') && (ReservedExactly(st) ==> ReservedExactly(st')) && st'.params == st.params
            && st'.sequence == st.sequence + 1 && st'.leases == st.leases[l.uuid := l] && st'.bank == st.bank
  {
    l := CreateWrites(env, st, tenant, inputs, metaHash);
    assert st.accounts[tenant].tenant == tenant by {
      hide Exact, SkuExact, Sheltered, Counted, CreditIndexOf, LeasesFiled, CreateLease;
    }
    hide Indexed, ReservedExactly, CreateLease, Place, PriceItems, Rates, Scale, UuidV7.Generate;
    PlaceKeeps(st, l, Reserve(st.accounts[tenant], Scale(Rates(l.items), st.params.minLeaseDuration)));
  }

  // ---------------------------------------------------------------- the other messages

  lemma FundKeeps(st: Store, sender: Address, tenant: Address, amount: Coin)
    requires Indexed(st) && FundCredit(st, sender, tenant, amount).Ok?
    ensures var st' := FundCredit(st, sender, tenant, amount).value.st;
            && Indexed(st') && (ReservedExactly(st) ==> ReservedExactly(st'))
            && st'.params == st.params && st'.sequence == st.sequence && st'.leases == st.leases
  {
    hide Indexed, Send, ReservedExactly;
    var st1 := st.(bank := Send(st.bank, sender, Credit(tenant), Single(amount)).value);
    BankIsFree(st, st1.bank);
    if tenant in st.accounts {
      SameAccountKeeps(st1, tenant);
    } else {
      NewAccountKeeps(st1, tenant);
    }
  }

  lemma SameAccountKeeps(st: Store, t: Address)
    requires Indexed(st) && t in st.accounts
    ensures SetAccount(st, st.accounts[t]) == st
  {
    hide Exact, SkuExact, Sheltered, Counted, CreditIndexOf, LeasesFiled;
    assert st.accounts[t].tenant == t;
    hide AccountsFiled;
    CreditIndexFollows(st.accounts, t, st.accounts[t]);
    assert st.accounts[t := st.accounts[t]] == st.accounts;
  }

  lemma NewAccountKeeps(st: Store, t: Address)
    requires Indexed(st) && t !in st.accounts
    ensures Indexed(SetAccount(st, NewAccount(t)))
    ensures ReservedExactly(st) ==> ReservedExactly(SetAccount(st, NewAccount(t)))
  {
    hide Exact, SkuExact, Sheltered, Counted, CreditIndexOf, LeasesFiled, AccountsFiled, Reserves;
    CreditIndexFollows(st.accounts, t, NewAccount(t));
    AccountsStayFiled(st.accounts, NewAccount(t));
    NewAccountCounts(st.leases, st.accounts, t);
    if ReservedExactly(st) {
      NewAccountReserves(st.leases, st.accounts, t, st.params.minLeaseDuration);
    }
  }

  lemma NewAccountCounts(leases: map<Uuid, Lease>, accounts: map<Address, CreditAccount>, t: Address)
    requires Sheltered(leases, accounts) && t !in accounts && Counted(leases, accounts)
    ensures Counted(leases, accounts[t := NewAccount(t)]) && Sheltered(leases, accounts[t := NewAccount(t)])
  {
    hide Sum, ReservedOf, ActiveOf, PendingOf;
    NewcomerHasNothing(leases, accounts, t);
  }

  lemma NewAccountReserves(leases: map<Uuid, Lease>, accounts: map<Address, CreditAccount>, t: Address, min: nat)
    requires Sheltered(leases, accounts) && t !in accounts && Reserves(leases, accounts, min)
    ensures Reserves(leases, accounts[t := NewAccount(t)], min)
  {
    hide Sum, ReservedOf, ActiveOf, PendingOf;
    NewcomerHasNothing(leases, accounts, t);
  }

  lemma AccountsStayFiled(accounts: map<Address, CreditAccount>, ca: CreditAccount)
    requires AccountsFiled(accounts) && ca.creditAddress == Credit(ca.tenant)
    ensures AccountsFiled(accounts[ca.tenant := ca])
  {
  }

  /** A tenant without an account has no live lease. */
  lemma NewcomerHasNothing(leases: map<Uuid, Lease>, accounts: map<Address, CreditAccount>, t: Address)
    requires Sheltered(leases, accounts) && t !in accounts
    ensures Sum(leases, ActiveOf(t)) == 0 && Sum(leases, PendingOf(t)) == 0
    ensures forall d, min :: Sum(leases, ReservedOf(t, d, min)) == 0
  {
    hide Reservation;
    SumZero(leases, ActiveOf(t));
    SumZero(leases, PendingOf(t));
    forall d, min ensures Sum(leases, ReservedOf(t, d, min)) == 0 {
      SumZero(leases, ReservedOf(t, d, min));
    }
  }

  lemma SameSkusSameUses(l: Lease, l': Lease)
    requires |l'.items| == |l.items| && forall j :: 0 <= j < |l.items| ==> l'.items[j].skuUuid == l.items[j].skuUuid
    ensures forall k :: Uses(l', k) <==> Uses(l, k)
  {
    forall k ensures Uses(l', k) <==> Uses(l, k) {
      if Uses(l, k) {
        var j :| 0 <= j < |l.items| && l.items[j].skuUuid == k;
        assert l'.items[j] in l'.items;
      }
      if Uses(l', k) {
        var j :| 0 <= j < |l'.items| && l'.items[j].skuUuid == k;
        assert l.items[j] in l.items;
      }
    }
  }

  /** Changing one item's domain leaves prices and SKUs alone. */
  lemma WithDomainIsRewrite(l: Lease, i: nat, domain: string)
    requires i < |l.items|
    ensures Rewrite(l, WithDomain(l, i, domain))
  {
    hide Rates, Uses;
    var l' := WithDomain(l, i, domain);
    SameRates(l.items, l'.items);
    SameSkusSameUses(l, l');
  }

  predicate SamePrices(a: seq<LeaseItem>, b: seq<LeaseItem>) {
    |a| == |b| && forall j :: 0 <= j < |a| ==> a[j].lockedPrice == b[j].lockedPrice && a[j].quantity == b[j].quantity
  }

  lemma {:induction false} SameRate(a: seq<LeaseItem>, b: seq<LeaseItem>, d: string)
    requires SamePrices(a, b)
    ensures Rate(a, d) == Rate(b, d)
    decreases |a|
  {
    if a != [] {
      SameRate(a[..|a| - 1], b[..|b| - 1], d);
    }
  }

  lemma SameRates(a: seq<LeaseItem>, b: seq<LeaseItem>)
    requires SamePrices(a, b)
    ensures Rates(a) == Rates(b)
  {
    forall d ensures AmountOf(Rates(a), d) == AmountOf(Rates(b), d) {
      SameRate(a, b, d);
    }
    CoinsEqual(Rates(a), Rates(b));
  }

  lemma DomainEditWrites(env: Env, st: Store, sender: Address, u: Uuid, service: string, raw: string)
    requires DomainEdit(env, st, sender, u, service, raw).Ok? && DomainEdit(env, st, sender, u, service, raw).value.Some?
    ensures u in st.leases && Live(st.leases[u])
    ensures var l := st.leases[u];
            exists i :: 0 <= i < |l.items| && IsOnly(l.items, service, i) &&
                        DomainEdit(env, st, sender, u, service, raw).value.value == WithDomain(l, i, Normalize(raw))
  {
    hide ValidFqdn, Reserved, Normalize;
    var i := FindItem(st.leases[u], service).value;
    assert IsOnly(st.leases[u].items, service, i);
  }

  lemma SetDomainKeeps(env: Env, st: Store, sender: Address, u: Uuid, service: string, raw: string)
    requires Indexed(st) && SetItemCustomDomain(env, st, sender, u, service, raw).Ok?
    ensures var st' := SetItemCustomDomain(env, st, sender, u, service, raw).value.st;
            && Indexed(st') && (ReservedExactly(st) ==> ReservedExactly(st'))
            && st'.params == st.params && st'.sequence == st.sequence
            && (st' == st || Relabelled(st.leases, u, service, Normalize(raw), st'.leases))
  {
    hide Indexed, ReservedExactly, SetLease, ValidFqdn, ValidLabel, UuidV7.IsValidUUIDv7, Normalize, IsOnly, Rewrite, DomainEdit, WithDomain;
    var edit := DomainEdit(env, st, sender, u, service, raw).value;
    if edit.Some? {
      DomainEditWrites(env, st, sender, u, service, raw);
      FiledUnderKey(st, u);
      var l := st.leases[u];
      var i :| 0 <= i < |l.items| && IsOnly(l.items, service, i) && edit.value == WithDomain(l, i, Normalize(raw));
      WithDomainIsRewrite(l, i, Normalize(raw));
      RewriteKeepsUuid(l, edit.value);
      RewriteKeeps(st, edit.value);
    }
  }

  /** One live lease got one item's domain changed; nothing else did. */
  ghost predicate Relabelled(leases: map<Uuid, Lease>, u: Uuid, service: string, domain: string, leases': map<Uuid, Lease>) {
    && u in leases && Live(leases[u])
    && exists i :: 0 <= i < |leases[u].items| && IsOnly(leases[u].items, service, i) &&
                   leases' == leases[u := WithDomain(leases[u], i, domain)]
  }

  lemma RewriteKeepsUuid(l: Lease, l': Lease)
    requires Rewrite(l, l')
    ensures l'.uuid == l.uuid
  {
    hide Rates, Uses;
  }

  // ---------------------------------------------------------------- parameter changes

  /** Every live lease costs something. */
  ghost predicate Priced(leases: map<Uuid, Lease>) {
    forall u :: u in leases && Live(leases[u]) ==> exists d :: Rate(leases[u].items, d) > 0
  }

  lemma ReservationAmount(l: Lease, min: nat, d: string)
    ensures AmountOf(Reservation(l, min), d) == Rate(l.items, d) * ReservedDuration(l, min)
  {
    hide Scale, Rates;
    ScaleAmount(Rates(l.items), ReservedDuration(l, min), d);
  }

  lemma WithoutLegacyReservationsAgree(leases: map<Uuid, Lease>, t: Address, d: string, min: nat, min': nat)
    requires NoLegacy(leases)
    ensures Sum(leases, ReservedOf(t, d, min)) == Sum(leases, ReservedOf(t, d, min'))
  {
    hide Scale, Rates;
    SumSame(leases, ReservedOf(t, d, min), ReservedOf(t, d, min'));
  }

  lemma Times(a: nat, b: nat, c: nat)
    requires b <= c
    ensures a * b <= a * c
    ensures a > 0 && b < c ==> a * b < a * c
  {
  }

  lemma LegacyMovesTheSum(leases: map<Uuid, Lease>, u: Uuid, d: string, min: nat, min': nat)
    requires u in leases && Live(leases[u]) && leases[u].minLeaseDurationAtCreation == 0 && Rate(leases[u].items, d) > 0
    requires min < min'
    ensures Sum(leases, ReservedOf(leases[u].tenant, d, min)) < Sum(leases, ReservedOf(leases[u].tenant, d, min'))
  {
    hide Reservation, Rate, Sum;
    var w, w' := ReservedOf(leases[u].tenant, d, min), ReservedOf(leases[u].tenant, d, min');
    forall k | k in leases ensures w(leases[k]) <= w'(leases[k]) {
      ReservationAmount(leases[k], min, d);
      ReservationAmount(leases[k], min', d);
      Times(Rate(leases[k].items, d), ReservedDuration(leases[k], min), ReservedDuration(leases[k], min'));
    }
    ReservationAmount(leases[u], min, d);
    ReservationAmount(leases[u], min', d);
    Times(Rate(leases[u].items, d), min, min');
    SumStrict(leases, w, w', u);
  }

  /** A change of the minimum duration keeps the reservation invariant exactly when it changes
      nothing or no live lease is a legacy one. */
  lemma ParamsChangeKeepsReserved(st: Store, min': nat)
    requires ReservedExactly(st) && Sheltered(st.leases, st.accounts) && Priced(st.leases)
    ensures Reserves(st.leases, st.accounts, min') <==> min' == st.params.minLeaseDuration || NoLegacy(st.leases)
  {
    hide Reservation, Sum;
    var min := st.params.minLeaseDuration;
    if NoLegacy(st.leases) {
      forall t, d | t in st.accounts
        ensures AmountOf(st.accounts[t].reservedAmounts, d) == Sum(st.leases, ReservedOf(t, d, min'))
      {
        WithoutLegacyReservationsAgree(st.leases, t, d, min, min');
      }
    } else {
      var u :| u in st.leases && Live(st.leases[u]) && st.leases[u].minLeaseDurationAtCreation == 0;
      var d :| Rate(st.leases[u].items, d) > 0;
      var t := st.leases[u].tenant;
      if min < min' {
        LegacyMovesTheSum(st.leases, u, d, min, min');
      } else if min' < min {
        LegacyMovesTheSum(st.leases, u, d, min', min);
      }
      assert t in st.accounts;
    }
  }

  // ---------------------------------------------------------------- events

  predicate IsBatch(ev: Event) {
    ev.Acknowledge? || ev.Reject? || ev.Cancel? || ev.Close? || ev.Withdraw? || ev.Sweep? || ev.BlockEnd?
  }

  function BatchOp(ev: Event): Op
    requires IsBatch(ev)
  {
    match ev
    case Acknowledge(_, _) => OpAcknowledge
    case Reject(_, _, reason) => OpReject(reason)
    case Cancel(_, _) => OpReject(CANCELLED_BY_TENANT)
    case Close(_, _, reason) => OpClose(reason)
    case Withdraw(_, _) => OpWithdraw
    case Sweep(_, _, _) => OpSweep
    case BlockEnd => OpExpire
  }

  function BatchTargets(env: Env, st: Store, ev: Event): seq<Uuid>
    requires IsBatch(ev)
  {
    match ev
    case Sweep(_, provider, limit) => SweepTargets(st, provider, limit)
    case BlockEnd => Text.Take(Text.Sorted(OverdueLeases(st, env.now)), MAX_PENDING_LEASE_EXPIRATIONS_PER_BLOCK)
    case _ => ev.uuids
  }

  lemma HandleIsBatch(env: Env, st: Store, ev: Event)
    requires IsBatch(ev) && Handle(env, st, ev).Ok?
    ensures Batch(BatchOp(ev), env, st, BatchTargets(env, st, ev)) == Handle(env, st, ev)
  {
    hide Batch, CheckBatch, PendingProvider, AuthorizeProvider, CheckCancel, CloseRole, WithdrawProvider, SweepTargets, OverdueLeases, Text.Take, UuidV7.IsValidUUIDv7;
  }

  predicate Creates(ev: Event) { ev.Create? || ev.CreateFor? }

  lemma CreationIsCreateLease(env: Env, st: Store, ev: Event)
    requires Creates(ev) && Handle(env, st, ev).Ok?
    ensures Handle(env, st, ev) == CreateLease(env, st, ev.tenant, ev.inputs, ev.metaHash)
  {
    hide CreateLease, CheckLeaseItems;
  }

  /** The invariant of every reachable store. */
  ghost predicate Good(st: Store) {
    Indexed(st) && st.params.minLeaseDuration > 0
  }

  /** The reservation invariant survives a step, unless the step changes the minimum duration
      under a legacy lease. */
  ghost predicate StaysReserved(st: Store, st': Store) {
    && (NoLegacy(st.leases) ==> NoLegacy(st'.leases))
    && (ReservedExactly(st) && (NoLegacy(st.leases) || st'.params.minLeaseDuration == st.params.minLeaseDuration) ==> ReservedExactly(st'))
  }

  lemma EvolvedHasNoLegacy(leases: map<Uuid, Lease>, us: seq<Uuid>, leases': map<Uuid, Lease>)
    requires OnlyEvolved(leases, us, leases')
    ensures NoLegacy(leases) ==> NoLegacy(leases')
  {
    if NoLegacy(leases) {
      forall u | u in leases' && Live(leases'[u]) ensures leases'[u].minLeaseDurationAtCreation > 0 {
        assert u in leases && EvolvesStar(leases[u], leases'[u]);
      }
    }
  }

  lemma BatchEventKeeps(env: Env, st: Store, ev: Event)
    requires Good(st) && IsBatch(ev) && Handle(env, st, ev).Ok?
    ensures Good(Handle(env, st, ev).value.st) && StaysReserved(st, Handle(env, st, ev).value.st)
  {
    hide Indexed, ReservedExactly, Handle, Batch, NoLegacy, OnlyEvolved, BatchOp, BatchTargets;
    HandleIsBatch(env, st, ev);
    BatchIsKept(BatchOp(ev), env, st, BatchTargets(env, st, ev));
    EvolvedHasNoLegacy(st.leases, BatchTargets(env, st, ev), Handle(env, st, ev).value.st.leases);
  }

  lemma NewLeaseIsNotLegacy(env: Env, st: Store, tenant: Address, q: Quote, metaHash: seq<int>)
    requires st.params.minLeaseDuration > 0
    ensures var l := NewLease(env, st, tenant, q, metaHash); NoLegacy(st.leases) ==> NoLegacy(st.leases[l.uuid := l])
  {
    hide UuidV7.Generate;
  }

  lemma CreationKeeps(env: Env, st: Store, ev: Event) returns (l: Lease)
    requires Good(st) && Creates(ev) && Handle(env, st, ev).Ok? && NextUuid(env, st) !in st.leases
    ensures Good(Handle(env, st, ev).value.st) && StaysReserved(st, Handle(env, st, ev).value.st)
    ensures Handle(env, st, ev).value.st.sequence == st.sequence + 1
    ensures Handle(env, st, ev).value.st.leases == st.leases[l.uuid := l]
    ensures PriceItems(env.catalog, ev.inputs).Ok?
    ensures l == NewLease(env, st, ev.tenant, PriceItems(env.catalog, ev.inputs).value, ev.metaHash)
  {
    CreationIsCreateLease(env, st, ev);
    hide Handle, CreateLease, Indexed, ReservedExactly, NextUuid, PriceItems, NewLease, NoLegacy;
    l := CreateKeeps(env, st, ev.tenant, ev.inputs, ev.metaHash);
    NewLeaseIsNotLegacy(env, st, ev.tenant, PriceItems(env.catalog, ev.inputs).value, ev.metaHash);
  }

  lemma RelabelledHasNoLegacy(leases: map<Uuid, Lease>, u: Uuid, service: string, domain: string, leases': map<Uuid, Lease>)
    requires Relabelled(leases, u, service, domain, leases')
    ensures NoLegacy(leases) ==> NoLegacy(leases')
  {
  }

  /** Every event keeps the invariant, and the reservations too unless it changes the minimum
      duration under a legacy lease; a creation needs its identifier to be unused. */
  lemma DeliverKeeps(env: Env, st: Store, ev: Event)
    requires Good(st) && (Creates(ev) && Handle(env, st, ev).Ok? ==> NextUuid(env, st) !in st.leases)
    ensures Good(Deliver(env, st, ev).st) && StaysReserved(st, Deliver(env, st, ev).st)
  {
    hide Indexed, ReservedExactly, NoLegacy, FundCredit, SetItemCustomDomain, ValidParams, Relabelled, UuidV7.Generate, CreateLease, CreateLeaseForTenant, EndBlock, WithdrawAll, WithdrawLeases, CloseLease, CancelLease, RejectLease, AcknowledgeLease;
    if Handle(env, st, ev).Ok? {
      if IsBatch(ev) {
        BatchEventKeeps(env, st, ev);
      } else if Creates(ev) {
        var l := CreationKeeps(env, st, ev);
      } else if ev.Fund? {
        FundKeeps(st, ev.sender, ev.tenant, ev.amount);
      } else if ev.SetDomain? {
        SetDomainKeeps(env, st, ev.sender, ev.uuid, ev.service, ev.domain);
        var st' := Handle(env, st, ev).value.st;
        if st' != st {
          RelabelledHasNoLegacy(st.leases, ev.uuid, ev.service, Normalize(ev.domain), st'.leases);
        }
      } else if ev.SetParams? {
        ParamsKeepGood(st, ev.params);
      } else {
        BankIsFree(st, ev.bank);
      }
    }
  }

  lemma ParamsKeepGood(st: Store, params: Params)
    requires Good(st)
    ensures ValidParams(params) ==> Good(st.(params := params)) && StaysReserved(st, st.(params := params))
  {
    hide Exact, SkuExact, Sheltered, Counted, CreditIndexOf, LeasesFiled, AccountsFiled, Sum, Reservation;
    if ReservedExactly(st) && NoLegacy(st.leases) {
      forall t, d | t in st.accounts
        ensures AmountOf(st.accounts[t].reservedAmounts, d) == Sum(st.leases, ReservedOf(t, d, params.minLeaseDuration))
      {
        WithoutLegacyReservationsAgree(st.leases, t, d, st.params.minLeaseDuration, params.minLeaseDuration);
      }
    }
  }

  // ---------------------------------------------------------------- runs

  /** Every lease outside `old` was named by the generator: `births[k]` is the millisecond in which
      sequence number `first + k` was taken. */
  ghost predicate Named(st: Store, earlier: set<Uuid>, first: nat, births: seq<int>) {
    && st.sequence == first + |births|
    && forall u :: u in st.leases && u !in earlier ==> exists k, node: nat :: IsBirthName(first, births, u, k, node)
  }

  ghost predicate IsBirthName(first: nat, births: seq<int>, u: Uuid, k: int, node: nat) {
    0 <= k < |births| && u == UuidV7.Format(UuidV7.Layout(births[k], first + k, node))
  }

  /** The identifier carries the millisecond. */
  ghost predicate Carries(u: Uuid, ms: int) {
    exists k: nat, node: nat :: u == UuidV7.Format(UuidV7.Layout(ms, k, node))
  }

  /** No old identifier carries a millisecond of a creation. */
  ghost predicate Predates(earlier: set<Uuid>, births: seq<int>) {
    forall u, i :: u in earlier && 0 <= i < |births| ==> !Carries(u, births[i])
  }

  lemma NewNameCarriesNow(env: Env, st: Store)
    ensures Carries(NextUuid(env, st), UuidV7.UnixMilli(env.now))
  {
    hide UuidV7.Format, UuidV7.Layout, UuidV7.Node;
    assert NextUuid(env, st) == UuidV7.Format(UuidV7.Layout(UuidV7.UnixMilli(env.now), st.sequence, UuidV7.Node(env.entropy, st.sequence)));
  }

  /** Identifiers with an earlier millisecond predate all creations from `ms` on. */
  lemma EarlierPredates(earlier: set<Uuid>, ms: int, births: seq<int>)
    requires forall u :: u in earlier ==> exists m: nat :: m < ms && Carries(u, m)
    requires forall i :: 0 <= i < |births| ==> ms <= births[i] < UuidV7.MILLIS_LIMIT
    ensures Predates(earlier, births)
  {
    hide UuidV7.Format, UuidV7.Layout, UuidV7.ByteAt;
    forall u, i | u in earlier && 0 <= i < |births| ensures !Carries(u, births[i]) {
      var m: nat :| m < ms && Carries(u, m);
      if Carries(u, births[i]) {
        var k: nat, node: nat :| u == UuidV7.Format(UuidV7.Layout(m, k, node));
        var k': nat, node': nat :| u == UuidV7.Format(UuidV7.Layout(births[i], k', node'));
        UuidV7.GeneratedIsInjective(m, k, node, births[i], k', node');
        UuidV7.BytesDetermine(m, births[i]);
      }
    }
  }

  /** Under the rate limit the next identifier is unused. */
  lemma NextIsFresh(env: Env, st: Store, earlier: set<Uuid>, first: nat, births: seq<int>)
    requires var all := births + [UuidV7.UnixMilli(env.now)];
             Named(st, earlier, first, births) && UuidV7.RateLimited(all) && Predates(earlier, all)
    ensures NextUuid(env, st) !in st.leases
  {
    hide UuidV7.Format, UuidV7.Layout, UuidV7.Node, UuidV7.RateLimited;
    var all := births + [UuidV7.UnixMilli(env.now)];
    NewNameCarriesNow(env, st);
    assert all[|births|] == UuidV7.UnixMilli(env.now);
    assert NextUuid(env, st) !in earlier;
    if NextUuid(env, st) in st.leases {
      var k, node: nat :| IsBirthName(first, births, NextUuid(env, st), k, node);
      UuidV7.RunIsCollisionFree(all, first, k, |births|, node, UuidV7.Node(env.entropy, st.sequence));
    }
  }

  /** The milliseconds of the creations of a run, after those of `births`. */
  function Births(st: Store, births: seq<int>, steps: seq<Step>): seq<int> {
    if steps == [] then births
    else
      var n := |steps| - 1;
      var before := Births(st, births, steps[..n]);
      var st1 := Run(st, steps[..n]).st;
      if Creates(steps[n].event) && Handle(steps[n].env, st1, steps[n].event).Ok?
      then before + [UuidV7.UnixMilli(steps[n].env.now)] else before
  }

  lemma NamesOfSteady(st: Store, earlier: set<Uuid>, first: nat, births: seq<int>, st': Store)
    requires Named(st, earlier, first, births) && st'.leases.Keys == st.leases.Keys && st'.sequence == st.sequence
    ensures Named(st', earlier, first, births)
  {
    hide IsBirthName;
    forall u | u in st'.leases && u !in earlier ensures exists k, node: nat :: IsBirthName(first, births, u, k, node) {
      assert u in st.leases;
    }
  }

  lemma NamesOfGrown(env: Env, st: Store, earlier: set<Uuid>, first: nat, births: seq<int>, l: Lease, st': Store)
    requires Named(st, earlier, first, births) && l.uuid == NextUuid(env, st)
    requires st'.leases == st.leases[l.uuid := l] && st'.sequence == st.sequence + 1
    ensures Named(st', earlier, first, births + [UuidV7.UnixMilli(env.now)])
  {
    hide UuidV7.Format, UuidV7.Layout, UuidV7.Node;
    var all := births + [UuidV7.UnixMilli(env.now)];
    forall u | u in st'.leases && u !in earlier ensures exists k, node: nat :: IsBirthName(first, all, u, k, node) {
      if u == l.uuid {
        assert IsBirthName(first, all, u, |births|, UuidV7.Node(env.entropy, st.sequence));
      } else {
        var k, node: nat :| IsBirthName(first, births, u, k, node);
        assert IsBirthName(first, all, u, k, node);
      }
    }
  }

  /** Events other than creations keep the set of leases and the sequence number. */
  lemma KeysAreSteady(env: Env, st: Store, ev: Event)
    requires Good(st) && !(Creates(ev) && Handle(env, st, ev).Ok?)
    ensures Deliver(env, st, ev).st.leases.Keys == st.leases.Keys && Deliver(env, st, ev).st.sequence == st.sequence
  {
    hide Indexed, ReservedExactly, NoLegacy, FundCredit, SetItemCustomDomain, ValidParams, UuidV7.Generate, CreateLease, CreateLeaseForTenant, EndBlock, WithdrawAll, WithdrawLeases, CloseLease, CancelLease, RejectLease, AcknowledgeLease, Batch, BatchTargets, EvolvesStar;
    if Handle(env, st, ev).Ok? {
      if IsBatch(ev) {
        HandleIsBatch(env, st, ev);
        BatchIsKept(BatchOp(ev), env, st, BatchTargets(env, st, ev));
      } else if ev.Fund? {
        FundKeeps(st, ev.sender, ev.tenant, ev.amount);
      } else if ev.SetDomain? {
        SetDomainKeeps(env, st, ev.sender, ev.uuid, ev.service, ev.domain);
      }
    }
  }

  lemma RatePrefix(births: seq<int>, x: int)
    requires UuidV7.RateLimited(births + [x])
    ensures UuidV7.RateLimited(births)
  {
    var all := births + [x];
    assert forall i :: 0 <= i < |births| ==> births[i] == all[i];
  }

  /** No creation of the run meets an identifier in use. */
  ghost predicate FreshRun(st: Store, steps: seq<Step>) {
    steps == [] ||
    var n := |steps| - 1;
    var before := Run(st, steps[..n]).st;
    && FreshRun(st, steps[..n])
    && (Creates(steps[n].event) && Handle(steps[n].env, before, steps[n].event).Ok? ==> NextUuid(steps[n].env, before) !in before.leases)
  }

  /** The invariant holds after every run: whatever the messages, their order and the other
      modules' bank activity. */
  lemma {:induction false} RunKeepsGood(st: Store, steps: seq<Step>)
    requires Good(st) && FreshRun(st, steps)
    ensures Good(Run(st, steps).st)
    decreases |steps|
  {
    hide Good, Deliver, Handle, StaysReserved, NextUuid;
    if steps != [] {
      var n := |steps| - 1;
      RunKeepsGood(st, steps[..n]);
      DeliverKeeps(steps[n].env, Run(st, steps[..n]).st, steps[n].event);
    }
  }

  /** No parameter update of the run changes the minimum duration. */
  predicate SameMinimum(steps: seq<Step>, min: nat) {
    forall i :: 0 <= i < |steps| && steps[i].event.SetParams? ==> steps[i].event.params.minLeaseDuration == min
  }

  lemma MinimumStays(env: Env, st: Store, ev: Event)
    requires Good(st) && (Creates(ev) && Handle(env, st, ev).Ok? ==> NextUuid(env, st) !in st.leases)
    requires ev.SetParams? ==> ev.params.minLeaseDuration == st.params.minLeaseDuration
    ensures Deliver(env, st, ev).st.params.minLeaseDuration == st.params.minLeaseDuration
  {
    hide ValidParams;
    if !ev.SetParams? {
      hide Good, Deliver, Handle, NextUuid;
      DeliverKeepsParams(env, st, ev);
    }
  }

  /** Only a parameter update changes the parameters. */
  lemma DeliverKeepsParams(env: Env, st: Store, ev: Event)
    requires Good(st) && !ev.SetParams?
    requires Creates(ev) && Handle(env, st, ev).Ok? ==> NextUuid(env, st) !in st.leases
    ensures Deliver(env, st, ev).st.params == st.params
  {
    hide Indexed, ReservedExactly, NoLegacy, FundCredit, SetItemCustomDomain, UuidV7.Generate, CreateLease, CreateLeaseForTenant, EndBlock, WithdrawAll, WithdrawLeases, CloseLease, CancelLease, RejectLease, AcknowledgeLease, Batch, BatchTargets, OnlyEvolved, Relabelled;
    if Handle(env, st, ev).Ok? {
      if IsBatch(ev) {
        HandleIsBatch(env, st, ev);
        BatchIsKept(BatchOp(ev), env, st, BatchTargets(env, st, ev));
      } else if Creates(ev) {
        CreationIsCreateLease(env, st, ev);
        var l := CreateKeeps(env, st, ev.tenant, ev.inputs, ev.metaHash);
      } else if ev.Fund? {
        FundKeeps(st, ev.sender, ev.tenant, ev.amount);
      } else if ev.SetDomain? {
        SetDomainKeeps(env, st, ev.sender, ev.uuid, ev.service, ev.domain);
      }
    }
  }

  /** The documented reservation invariant holds after every run that starts without live legacy
      leases, and after every run that leaves the minimum duration alone. */
  lemma {:induction false} RunKeepsReserved(st: Store, steps: seq<Step>)
    requires Good(st) && FreshRun(st, steps) && ReservedExactly(st)
    requires NoLegacy(st.leases) || SameMinimum(steps, st.params.minLeaseDuration)
    ensures ReservedExactly(Run(st, steps).st)
    ensures NoLegacy(st.leases) ==> NoLegacy(Run(st, steps).st.leases)
    ensures SameMinimum(steps, st.params.minLeaseDuration) ==> Run(st, steps).st.params.minLeaseDuration == st.params.minLeaseDuration
    decreases |steps|
  {
    hide Good, Deliver, Handle, NextUuid, NoLegacy, ReservedExactly;
    if steps != [] {
      var n := |steps| - 1;
      RunKeepsReserved(st, steps[..n]);
      RunKeepsGood(st, steps[..n]);
      var before := Run(st, steps[..n]).st;
      DeliverKeeps(steps[n].env, before, steps[n].event);
      if SameMinimum(steps, st.params.minLeaseDuration) {
        MinimumStays(steps[n].env, before, steps[n].event);
      }
    }
  }

  lemma PredatesPrefix(earlier: set<Uuid>, births: seq<int>, x: int)
    requires Predates(earlier, births + [x])
    ensures Predates(earlier, births)
  {
    hide Carries;
    assert forall i :: 0 <= i < |births| ==> (births + [x])[i] == births[i];
  }

  /** When no millisecond sees more than 4096 creations and the identifiers present at the start
      carry other milliseconds, no creation meets an identifier in use. */
  lemma {:induction false} RunIsFresh(st: Store, earlier: set<Uuid>, first: nat, births: seq<int>, steps: seq<Step>)
    requires Good(st) && Named(st, earlier, first, births)
    requires UuidV7.RateLimited(Births(st, births, steps)) && Predates(earlier, Births(st, births, steps))
    ensures FreshRun(st, steps) && Named(Run(st, steps).st, earlier, first, Births(st, births, steps))
    decreases |steps|
  {
    hide Good, Named, Deliver, Handle, UuidV7.RateLimited, NextUuid, Predates;
    if steps != [] {
      var n := |steps| - 1;
      var env, ev := steps[n].env, steps[n].event;
      var before, b := Run(st, steps[..n]).st, Births(st, births, steps[..n]);
      if Creates(ev) && Handle(env, before, ev).Ok? {
        RatePrefix(b, UuidV7.UnixMilli(env.now));
        PredatesPrefix(earlier, b, UuidV7.UnixMilli(env.now));
        RunIsFresh(st, earlier, first, births, steps[..n]);
        RunKeepsGood(st, steps[..n]);
        NextIsFresh(env, before, earlier, first, b);
        CreationStep(env, before, earlier, first, b, ev);
      } else {
        RunIsFresh(st, earlier, first, births, steps[..n]);
        RunKeepsGood(st, steps[..n]);
        SteadyStep(env, before, earlier, first, b, ev);
      }
    }
  }

  lemma CreationStep(env: Env, st: Store, earlier: set<Uuid>, first: nat, births: seq<int>, ev: Event)
    requires Good(st) && Named(st, earlier, first, births) && Creates(ev) && Handle(env, st, ev).Ok? && NextUuid(env, st) !in st.leases
    ensures Named(Deliver(env, st, ev).st, earlier, first, births + [UuidV7.UnixMilli(env.now)])
  {
    hide Good, Named, Handle, UuidV7.Generate;
    var l := CreationKeeps(env, st, ev);
    NamesOfGrown(env, st, earlier, first, births, l, Deliver(env, st, ev).st);
  }

  lemma SteadyStep(env: Env, st: Store, earlier: set<Uuid>, first: nat, births: seq<int>, ev: Event)
    requires Good(st) && Named(st, earlier, first, births) && !(Creates(ev) && Handle(env, st, ev).Ok?)
    ensures Named(Deliver(env, st, ev).st, earlier, first, births)
  {
    hide Good, Named, UuidV7.Generate, Deliver, Handle;
    KeysAreSteady(env, st, ev);
    NamesOfSteady(st, earlier, first, births, Deliver(env, st, ev).st);
  }

  /** Any store can be the start: all its identifiers are old ones. */
  lemma AnyStartIsNamed(st: Store)
    ensures Named(st, st.leases.Keys, st.sequence, [])
  {
  }

  /** The store of a chain that starts without leases or accounts. */
  function EmptyStore(params: Params, bank: Bank): Store {
    Store(params, map[], 0, map[], map[], {}, map[], bank)
  }

  lemma EmptyIsGood(params: Params, bank: Bank)
    requires params.minLeaseDuration > 0
    ensures Good(EmptyStore(params, bank)) && Named(EmptyStore(params, bank), {}, 0, [])
    ensures ReservedExactly(EmptyStore(params, bank)) && NoLegacy(EmptyStore(params, bank).leases)
  {
    assert CreditIndexOf(map[]) == map[];
  }
}
