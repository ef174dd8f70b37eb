/** Genesis export, validation and import. */
module Genesis {
  import opened Coins
  import opened Types
  import opened Reservations
  import opened DomainIndex
  import opened Names
  import opened Sums
  import opened Text
  import opened Ledger
  import opened Invariants
  import opened Reachable
  import opened Lifetime
  import opened Structure
  import UuidV7

  datatype GenesisState = GenesisState(
    params: Params, leases: seq<Lease>, creditAccounts: seq<CreditAccount>, leaseSequence: nat)

  // ---------------------------------------------------------------- lists and maps of records

  predicate DistinctLeases(ls: seq<Lease>) {
    forall i, j :: 0 <= i < j < |ls| ==> ls[i].uuid != ls[j].uuid
  }

  predicate DistinctAccounts(cas: seq<CreditAccount>) {
    forall i, j :: 0 <= i < j < |cas| ==> cas[i].tenant != cas[j].tenant
  }

  function LeaseMap(ls: seq<Lease>): map<Uuid, Lease> {
    if ls == [] then map[] else LeaseMap(ls[..|ls| - 1])[ls[|ls| - 1].uuid := ls[|ls| - 1]]
  }

  function AccountMap(cas: seq<CreditAccount>): map<Address, CreditAccount> {
    if cas == [] then map[] else AccountMap(cas[..|cas| - 1])[cas[|cas| - 1].tenant := cas[|cas| - 1]]
  }

  /** The exported genesis: the records of the store as lists, leases in identifier order. */
  ghost predicate IsExport(st: Store, g: GenesisState) {
    && g.params == st.params && g.leaseSequence == st.sequence
    && |g.leases| == |st.leases| && (forall i :: 0 <= i < |g.leases| ==> g.leases[i].uuid == Sorted(st.leases.Keys)[i])
    && DistinctLeases(g.leases) && LeaseMap(g.leases) == st.leases
    && DistinctAccounts(g.creditAccounts) && AccountMap(g.creditAccounts) == st.accounts
  }

  lemma {:induction false} LeaseMapKeys(ls: seq<Lease>)
    ensures forall u :: u in LeaseMap(ls) <==> exists i :: 0 <= i < |ls| && ls[i].uuid == u
    ensures LeasesFiled(LeaseMap(ls))
    decreases |ls|
  {
    if ls != [] {
      var n := |ls| - 1;
      LeaseMapKeys(ls[..n]);
      var m, m' := LeaseMap(ls[..n]), LeaseMap(ls);
      forall u ensures u in m' <==> exists i :: 0 <= i < |ls| && ls[i].uuid == u {
        if u in m {
          var i :| 0 <= i < |ls[..n]| && ls[..n][i].uuid == u;
          assert ls[i].uuid == u;
        }
        if exists i :: 0 <= i < |ls| && ls[i].uuid == u {
          var i :| 0 <= i < |ls| && ls[i].uuid == u;
          if i < n { assert ls[..n][i].uuid == u; }
        }
        assert ls[n].uuid in m';
      }
    }
  }

  lemma LastIsNew(ls: seq<Lease>)
    requires ls != [] && DistinctLeases(ls)
    ensures DistinctLeases(ls[..|ls| - 1]) && ls[|ls| - 1].uuid !in LeaseMap(ls[..|ls| - 1])
  {
    var n := |ls| - 1;
    LeaseMapKeys(ls[..n]);
    assert forall i :: 0 <= i < n ==> ls[..n][i] == ls[i];
  }

  lemma {:induction false} LeaseMapSize(ls: seq<Lease>)
    requires DistinctLeases(ls)
    ensures |LeaseMap(ls)| == |ls|
    decreases |ls|
  {
    if ls != [] {
      LastIsNew(ls);
      LeaseMapSize(ls[..|ls| - 1]);
      GrownSize(LeaseMap(ls[..|ls| - 1]), ls[|ls| - 1].uuid, ls[|ls| - 1]);
    }
  }

  /** Sum of a weight over a list of leases. */
  function SumList(ls: seq<Lease>, w: Lease -> nat): nat {
    if ls == [] then 0 else SumList(ls[..|ls| - 1], w) + w(ls[|ls| - 1])
  }

  lemma {:induction false} SumListIsSum(ls: seq<Lease>, w: Lease -> nat)
    requires DistinctLeases(ls)
    ensures SumList(ls, w) == Sum(LeaseMap(ls), w)
    decreases |ls|
  {
    if ls == [] {
      SumZero(LeaseMap(ls), w);
    } else {
      LastIsNew(ls);
      SumListIsSum(ls[..|ls| - 1], w);
      SumUpdate(LeaseMap(ls[..|ls| - 1]), w, ls[|ls| - 1].uuid, ls[|ls| - 1]);
    }
  }

  lemma AccountMapSnoc(cas: seq<CreditAccount>)
    requires cas != []
    ensures var n := |cas| - 1; AccountMap(cas) == AccountMap(cas[..n])[cas[n].tenant := cas[n]]
  {
  }

  lemma {:induction false} AccountMapKeys(cas: seq<CreditAccount>)
    ensures forall t :: t in AccountMap(cas) <==> exists i :: 0 <= i < |cas| && cas[i].tenant == t
    decreases |cas|
  {
    if cas != [] {
      var n := |cas| - 1;
      AccountMapKeys(cas[..n]);
      AccountMapSnoc(cas);
      hide AccountMap;
      forall t ensures t in AccountMap(cas) <==> exists i :: 0 <= i < |cas| && cas[i].tenant == t {
        TenantOfLast(cas, t);
      }
    }
  }

  lemma {:induction false} AccountMapValues(cas: seq<CreditAccount>, i: nat)
    requires DistinctAccounts(cas) && i < |cas|
    ensures cas[i].tenant in AccountMap(cas) && AccountMap(cas)[cas[i].tenant] == cas[i]
    decreases |cas|
  {
    hide AccountMap;
    AccountMapSnoc(cas);
    var n := |cas| - 1;
    if i < n {
      assert cas[..n][i] == cas[i];
      AccountMapValues(cas[..n], i);
    }
  }

  lemma AccountMapAt(cas: seq<CreditAccount>)
    requires DistinctAccounts(cas)
    ensures forall t :: t in AccountMap(cas) <==> exists i :: 0 <= i < |cas| && cas[i].tenant == t
    ensures forall i :: 0 <= i < |cas| ==> cas[i].tenant in AccountMap(cas) && AccountMap(cas)[cas[i].tenant] == cas[i]
  {
    hide AccountMap, DistinctAccounts;
    AccountMapKeys(cas);
    forall i | 0 <= i < |cas| ensures cas[i].tenant in AccountMap(cas) && AccountMap(cas)[cas[i].tenant] == cas[i] {
      AccountMapValues(cas, i);
    }
  }

  lemma TenantOfLast(cas: seq<CreditAccount>, t: Address)
    requires cas != []
    ensures var n := |cas| - 1;
            (exists i :: 0 <= i < |cas| && cas[i].tenant == t) <==>
            t == cas[n].tenant || exists i :: 0 <= i < |cas[..n]| && cas[..n][i].tenant == t
  {
    var n := |cas| - 1;
    assert forall i :: 0 <= i < n ==> cas[..n][i] == cas[i];
    if i :| 0 <= i < |cas[..n]| && cas[..n][i].tenant == t {
      assert cas[i].tenant == t;
    }
    if i :| 0 <= i < |cas| && cas[i].tenant == t && i < n {
      assert cas[..n][i].tenant == t;
    }
  }

  // ---------------------------------------------------------------- validation

  /** Reserved amounts, counters and sequence agree with the listed leases. */
  ghost predicate CrossChecked(g: GenesisState) {
    && (forall i :: 0 <= i < |g.creditAccounts| ==> AccountAgrees(g, g.creditAccounts[i]))
    && (forall i :: 0 <= i < |g.leases| && Live(g.leases[i]) && Reservation(g.leases[i], g.params.minLeaseDuration) != NO_COINS ==>
          exists j :: 0 <= j < |g.creditAccounts| && g.creditAccounts[j].tenant == g.leases[i].tenant)
    && |g.leases| <= g.leaseSequence
  }

  ghost predicate AccountAgrees(g: GenesisState, ca: CreditAccount) {
    && (forall d :: AmountOf(ca.reservedAmounts, d) == SumList(g.leases, ReservedOf(ca.tenant, d, g.params.minLeaseDuration)))
    && ca.activeLeaseCount == SumList(g.leases, ActiveOf(ca.tenant))
    && ca.pendingLeaseCount == SumList(g.leases, PendingOf(ca.tenant))
  }

  lemma AccountAgreesIff(g: GenesisState, ca: CreditAccount, leases: map<Uuid, Lease>)
    requires DistinctLeases(g.leases) && LeaseMap(g.leases) == leases
    ensures AccountAgrees(g, ca) <==>
            (forall d :: AmountOf(ca.reservedAmounts, d) == Sum(leases, ReservedOf(ca.tenant, d, g.params.minLeaseDuration))) &&
            ca.activeLeaseCount == Sum(leases, ActiveOf(ca.tenant)) && ca.pendingLeaseCount == Sum(leases, PendingOf(ca.tenant))
  {
    hide SumList, Sum, LeaseMap, DistinctLeases, ReservedOf, ActiveOf, PendingOf;
    SumListIsSum(g.leases, ActiveOf(ca.tenant));
    SumListIsSum(g.leases, PendingOf(ca.tenant));
    forall d ensures SumList(g.leases, ReservedOf(ca.tenant, d, g.params.minLeaseDuration)) == Sum(leases, ReservedOf(ca.tenant, d, g.params.minLeaseDuration)) {
      SumListIsSum(g.leases, ReservedOf(ca.tenant, d, g.params.minLeaseDuration));
    }
  }

  /** The export of a store that keeps the invariants passes the cross-checks. */
  lemma ExportPassesCrossChecks(st: Store, g: GenesisState)
    requires Indexed(st) && ReservedExactly(st) && IsExport(st, g)
    ensures CrossChecked(g)
  {
    hide Exact, SkuExact, Keyed, Sum, AccountAgrees, LeaseMap, AccountMap, ReservedOf, ActiveOf, PendingOf, Reservation, Increasing;
    LeaseMapSize(g.leases);
    AccountMapAt(g.creditAccounts);
    LeaseMapHas(g.leases);
    forall i | 0 <= i < |g.creditAccounts| ensures AccountAgrees(g, g.creditAccounts[i]) {
      var t := g.creditAccounts[i].tenant;
      assert t in st.accounts && st.accounts[t] == g.creditAccounts[i];
      AccountAgreesIff(g, g.creditAccounts[i], st.leases);
    }
    forall i | 0 <= i < |g.leases| && Live(g.leases[i])
      ensures exists j :: 0 <= j < |g.creditAccounts| && g.creditAccounts[j].tenant == g.leases[i].tenant
    {
      assert st.leases[g.leases[i].uuid] == g.leases[i];
      assert g.leases[i].tenant in st.accounts;
    }
  }

  lemma {:induction false} LeaseMapHas(ls: seq<Lease>)
    requires DistinctLeases(ls)
    ensures forall i :: 0 <= i < |ls| ==> ls[i].uuid in LeaseMap(ls) && LeaseMap(ls)[ls[i].uuid] == ls[i]
    decreases |ls|
  {
    if ls != [] {
      var n := |ls| - 1;
      LastIsNew(ls);
      LeaseMapHas(ls[..n]);
      assert forall i :: 0 <= i < n ==> ls[..n][i] == ls[i];
    }
  }

  /** A lease record that validation accepts. */
  predicate LeaseValid(params: Params, l: Lease) {
    && LeaseOk(l) && l.state != Unspecified && (l.state == Closed ==> l.closedAt.Some?)
    && NotReserved(params, l)
  }

  predicate NotReserved(params: Params, l: Lease) {
    forall i :: 0 <= i < |l.items| && l.items[i].customDomain != "" ==>
      !Reserved(l.items[i].customDomain, params.reservedDomainSuffixes)
  }

  /** The credit address is the derived one and the reserved amounts are a valid coin set. */
  predicate AccountOk(ca: CreditAccount) {
    ca.creditAddress == Credit(ca.tenant) && ValidCoins(ca.reservedAmounts)
  }

  /** What `Validate` accepts. */
  ghost predicate Valid(g: GenesisState) {
    && ValidParams(g.params)
    && DistinctLeases(g.leases) && (forall i :: 0 <= i < |g.leases| ==> LeaseValid(g.params, g.leases[i]))
    && DistinctAccounts(g.creditAccounts)
    && (forall i :: 0 <= i < |g.creditAccounts| ==> AccountOk(g.creditAccounts[i]))
    && CrossChecked(g)
  }

  /** The export of a reachable store is valid exactly when no stored domain has meanwhile been
      covered by a reserved suffix. */
  lemma ExportIsValidIff(st: Store, g: GenesisState, now: Time)
    requires Indexed(st) && ReservedExactly(st) && ValidParams(st.params) && AllOk(st.leases) && Timely(st.leases, now)
    requires IsExport(st, g)
    ensures Valid(g) <==> forall u :: u in st.leases ==> NotReserved(st.params, st.leases[u])
  {
    hide CrossChecked, ValidParams, NotReserved, AllOk, LeaseValid, AccountOk, Timely, Indexed, ReservedExactly, LeaseMap, AccountMap, Increasing, DistinctLeases, DistinctAccounts;
    ExportPassesCrossChecks(st, g);
    ExportedAccountsAreOk(st, g);
    ExportedLeasesValidIff(st, g, now);
  }

  lemma ExportedLeasesValidIff(st: Store, g: GenesisState, now: Time)
    requires AllOk(st.leases) && Timely(st.leases, now) && DistinctLeases(g.leases) && LeaseMap(g.leases) == st.leases
    ensures (forall i :: 0 <= i < |g.leases| ==> LeaseValid(st.params, g.leases[i])) <==>
            (forall u :: u in st.leases ==> NotReserved(st.params, st.leases[u]))
  {
    LeaseMapHas(g.leases);
    LeaseMapKeys(g.leases);
    hide NotReserved, LeaseOk, LeaseMap, DistinctLeases;
    forall i | 0 <= i < |g.leases|
      ensures LeaseValid(st.params, g.leases[i]) <==> NotReserved(st.params, g.leases[i])
    {
      var u := g.leases[i].uuid;
      assert st.leases[u] == g.leases[i] && LeaseOk(st.leases[u]) && TimelyLease(st.leases[u], now);
    }
    forall u | u in st.leases ensures exists i :: 0 <= i < |g.leases| && g.leases[i] == st.leases[u] {
      var i :| 0 <= i < |g.leases| && g.leases[i].uuid == u;
      assert g.leases[i] == st.leases[u];
    }
  }

  /** Reserved amounts come from live leases, so their denominations are valid. */
  lemma ReservedDenomsAreValid(st: Store, t: Address, d: string)
    requires ReservedExactly(st) && AllOk(st.leases) && t in st.accounts && d in st.accounts[t].reservedAmounts
    ensures ValidDenom(d)
  {
    hide Sum, Reservation, ValidDenom, LeaseOk;
    var w := ReservedOf(t, d, st.params.minLeaseDuration);
    assert AmountOf(st.accounts[t].reservedAmounts, d) == Sum(st.leases, w) > 0;
    if forall u :: u in st.leases ==> w(st.leases[u]) == 0 {
      SumZero(st.leases, w);
    } else {
      var u :| u in st.leases && w(st.leases[u]) > 0;
      var l := st.leases[u];
      ReservationAmount(l, st.params.minLeaseDuration, d);
      LeaseDenoms(l, d);
    }
  }

  lemma LeaseDenoms(l: Lease, d: string)
    requires LeaseOk(l) && Rate(l.items, d) > 0
    ensures ValidDenom(d)
  {
    hide ValidDenom, UuidV7.IsValidUUIDv7, NamesOk, Addressable, ValidFqdn, Rate;
    RateNeedsDenom(l.items, d);
    var it :| it in l.items && it.lockedPrice.denom == d;
    assert ItemOk(it);
  }

  lemma ExportedAccountsAreOk(st: Store, g: GenesisState)
    requires Indexed(st) && ReservedExactly(st) && AllOk(st.leases) && IsExport(st, g)
    ensures forall i :: 0 <= i < |g.creditAccounts| ==> AccountOk(g.creditAccounts[i])
  {
    hide Exact, SkuExact, Sheltered, Counted, CreditIndexOf, LeasesFiled, AccountMap, LeaseMap, Increasing, ValidDenom, ReservedExactly, AllOk;
    AccountMapAt(g.creditAccounts);
    forall i | 0 <= i < |g.creditAccounts| ensures AccountOk(g.creditAccounts[i]) {
      var ca := g.creditAccounts[i];
      assert ca.tenant in st.accounts && st.accounts[ca.tenant] == ca;
      forall d | d in ca.reservedAmounts ensures ValidDenom(d) {
        ReservedDenomsAreValid(st, ca.tenant, d);
      }
    }
  }

  // ---------------------------------------------------------------- import

  predicate TimesOk(ls: seq<Lease>, now: Time) {
    forall i :: 0 <= i < |ls| ==>
      && ls[i].lastSettledAt <= now && ls[i].createdAt <= now
      && (ls[i].state == Closed && ls[i].closedAt.Some? ==> ls[i].closedAt.value <= now)
  }

  /** The provider and the SKUs of a lease exist and belong together. */
  predicate Known(catalog: Catalog, l: Lease) {
    && l.providerUuid in catalog.providers
    && forall i :: 0 <= i < |l.items| ==>
         l.items[i].skuUuid in catalog.skus && catalog.skus[l.items[i].skuUuid].providerUuid == l.providerUuid
  }

  function ImportLeases(catalog: Catalog, st: Store, ls: seq<Lease>): Result<Store> {
    if ls == [] then Ok(st)
    else
      var before :- ImportLeases(catalog, st, ls[..|ls| - 1]);
      if !Known(catalog, ls[|ls| - 1]) then Err(InvalidLease) else SetLease(before, ls[|ls| - 1])
  }

  function ImportAccounts(st: Store, cas: seq<CreditAccount>): Store {
    if cas == [] then st else SetAccount(ImportAccounts(st, cas[..|cas| - 1]), cas[|cas| - 1])
  }

  function InitGenesis(env: Env, st: Store, g: GenesisState): Result<Store> {
    if !TimesOk(g.leases, env.now) then Err(InvalidLease)
    else
      var st1 :- ImportLeases(env.catalog, st.(params := g.params), g.leases);
      var st2 := ImportAccounts(st1, g.creditAccounts);
      Ok(if g.leaseSequence > 0 then st2.(sequence := g.leaseSequence) else st2)
  }

  /** A store of a fresh chain: no record of this module yet. */
  predicate Blank(st: Store) {
    st.leases == map[] && st.sequence == 0 && st.accounts == map[] && st.creditIndex == map[] && st.skuIndex == {} && st.domainIndex == map[]
  }

  /** What the lease loop leaves behind. */
  ghost predicate Imported(st: Store, ls: seq<Lease>, st': Store) {
    && st' == st.(leases := LeaseMap(ls), skuIndex := st'.skuIndex, domainIndex := st'.domainIndex)
    && Exact(st'.domainIndex, st'.leases) && SkuExact(st'.skuIndex, st'.leases)
  }

  lemma BlankIsImported(st: Store)
    requires Blank(st)
    ensures Imported(st, [], st)
  {
  }

  lemma ImportStep(st: Store, ls: seq<Lease>, before: Store)
    requires ls != [] && DistinctLeases(ls) && Imported(st, ls[..|ls| - 1], before) && SetLease(before, ls[|ls| - 1]).Ok?
    ensures Imported(st, ls, SetLease(before, ls[|ls| - 1]).value)
  {
    LastIsNew(ls);
    var l := ls[|ls| - 1];
    ReconcileExact(before.domainIndex, before.leases, l);
    var st' := SetLease(before, l).value;
    assert st'.leases == before.leases[l.uuid := l] && st'.skuIndex == before.skuIndex + SkuEntries(l) by {
      hide Reconcile, Exact, SkuExact, SkuEntries;
    }
    FreshKeepsSkus(before, l, st');
    hide Exact, SkuExact, SkuEntries, Reconcile;
  }

  lemma {:induction false} ImportLeasesKeeps(catalog: Catalog, st: Store, ls: seq<Lease>)
    requires Blank(st) && DistinctLeases(ls) && ImportLeases(catalog, st, ls).Ok?
    ensures Imported(st, ls, ImportLeases(catalog, st, ls).value)
    decreases |ls|
  {
    hide Imported, SetLease, Known;
    if ls == [] {
      BlankIsImported(st);
    } else {
      LastIsNew(ls);
      ImportLeasesKeeps(catalog, st, ls[..|ls| - 1]);
      ImportStep(st, ls, ImportLeases(catalog, st, ls[..|ls| - 1]).value);
    }
  }

  predicate PartOf(ls: seq<Lease>, leases: map<Uuid, Lease>) {
    forall i :: 0 <= i < |ls| ==> ls[i].uuid in leases && leases[ls[i].uuid] == ls[i]
  }

  /** Leases that already coexist under one index never conflict on import. */
  lemma NoConflict(idx: Index, leases: map<Uuid, Lease>, some: map<Uuid, Lease>, l: Lease)
    requires Exact(idx, leases) && l.uuid in leases && leases[l.uuid] == l && l.uuid !in some
    requires forall v :: v in some ==> v in leases && leases[v] == some[v]
    ensures Injective(Claims(l)) && Unclaimed(some, l)
  {
    hide Claims;
    assert forall s :: s in Claims(l) ==> Holds(leases, Claims(l)[s], l.uuid, s);
    forall s, s' | s in Claims(l) && s' in Claims(l) && Claims(l)[s] == Claims(l)[s'] ensures s == s' {
      assert Points(idx, Claims(l)[s], l.uuid, s) && Points(idx, Claims(l)[s'], l.uuid, s');
    }
    forall d, v, s | Holds(some, d, v, s) && v != l.uuid ensures d !in Claims(l).Values {
      assert Holds(leases, d, v, s);
      assert Points(idx, d, v, s);
    }
  }

  lemma {:induction false} ImportSucceeds(catalog: Catalog, st: Store, ls: seq<Lease>, idx: Index, leases: map<Uuid, Lease>)
    requires Blank(st) && DistinctLeases(ls) && PartOf(ls, leases) && Exact(idx, leases)
    requires forall i :: 0 <= i < |ls| ==> Known(catalog, ls[i])
    ensures ImportLeases(catalog, st, ls).Ok?
    decreases |ls|
  {
    hide Exact, SetLease, Known, SkuExact;
    if ls != [] {
      var n := |ls| - 1;
      LastIsNew(ls);
      ImportSucceeds(catalog, st, ls[..n], idx, leases);
      ImportLeasesKeeps(catalog, st, ls[..n]);
      var before := ImportLeases(catalog, st, ls[..n]).value;
      PartOfMap(ls[..n], leases);
      NoConflict(idx, leases, before.leases, ls[n]);
      SetLeaseIff(before, ls[n]);
    }
  }

  lemma PartOfMap(ls: seq<Lease>, leases: map<Uuid, Lease>)
    requires DistinctLeases(ls) && PartOf(ls, leases)
    ensures forall v :: v in LeaseMap(ls) ==> v in leases && leases[v] == LeaseMap(ls)[v]
  {
    LeaseMapHas(ls);
    LeaseMapKeys(ls);
    hide LeaseMap;
  }

  lemma SetLeaseIff(st: Store, l: Lease)
    requires Exact(st.domainIndex, st.leases)
    ensures SetLease(st, l).Ok? <==> Injective(Claims(l)) && Unclaimed(st.leases, l)
  {
    hide Exact, Reconcile, SkuEntries, Injective, Unclaimed;
    ReconcileExact(st.domainIndex, st.leases, l);
  }

  lemma {:induction false} ImportedAccounts(st: Store, cas: seq<CreditAccount>)
    requires st.accounts == map[] && st.creditIndex == map[]
    ensures ImportAccounts(st, cas) == st.(accounts := AccountMap(cas), creditIndex := CreditIndexOf(AccountMap(cas)))
    decreases |cas|
  {
    if cas == [] {
      assert CreditIndexOf(map[]) == map[];
    } else {
      var n := |cas| - 1;
      ImportedAccounts(st, cas[..n]);
      CreditIndexFollows(AccountMap(cas[..n]), cas[n].tenant, cas[n]);
    }
  }

  lemma SkuIndexIsUnique(a: set<(string, Uuid)>, b: set<(string, Uuid)>, leases: map<Uuid, Lease>)
    requires SkuExact(a, leases) && SkuExact(b, leases)
    ensures a == b
  {
    hide Uses;
    forall p ensures p in a <==> p in b {
      assert p == (p.0, p.1);
    }
  }

  /** Importing the export of a store into a fresh chain rebuilds the store exactly, the indexes
      that are not exported included, as long as the SKU module still knows what the leases
      refer to and block time is not earlier than anything recorded. */
  lemma RoundTrip(env: Env, st: Store, g: GenesisState, blank: Store)
    requires Indexed(st) && Timely(st.leases, env.now) && IsExport(st, g)
    requires forall u :: u in st.leases ==> Known(env.catalog, st.leases[u])
    requires Blank(blank) && blank.bank == st.bank
    ensures InitGenesis(env, blank, g) == Ok(st)
  {
    ExportedParts(st, g, env.catalog, env.now);
    var st0 := blank.(params := g.params);
    assert Exact(st.domainIndex, st.leases) && SkuExact(st.skuIndex, st.leases) && st.creditIndex == CreditIndexOf(st.accounts) by {
      hide Exact, SkuExact, Counted, Sheltered, CreditIndexOf, LeasesFiled, AccountsFiled;
    }
    hide Indexed, Exact, SkuExact, LeaseMap, AccountMap, CreditIndexOf, Increasing, ImportLeases, ImportAccounts, Known, PartOf;
    ImportSucceeds(env.catalog, st0, g.leases, st.domainIndex, st.leases);
    ImportLeasesKeeps(env.catalog, st0, g.leases);
    var st1 := ImportLeases(env.catalog, st0, g.leases).value;
    ExactIsUnique(st1.domainIndex, st.domainIndex, st.leases);
    SkuIndexIsUnique(st1.skuIndex, st.skuIndex, st.leases);
    ImportedAccounts(st1, g.creditAccounts);
  }

  lemma ExportedParts(st: Store, g: GenesisState, catalog: Catalog, now: Time)
    requires IsExport(st, g) && Timely(st.leases, now)
    requires forall u :: u in st.leases ==> Known(catalog, st.leases[u])
    ensures PartOf(g.leases, st.leases) && TimesOk(g.leases, now)
    ensures forall i :: 0 <= i < |g.leases| ==> Known(catalog, g.leases[i])
  {
    hide Known, LeaseMap, AccountMap, Increasing;
    LeaseMapHas(g.leases);
    forall i | 0 <= i < |g.leases| ensures TimelyLease(g.leases[i], now) && Known(catalog, g.leases[i]) {
      assert st.leases[g.leases[i].uuid] == g.leases[i];
    }
  }

  // ---------------------------------------------------------------- when an import succeeds

  /** The leases claim different domains. */
  predicate Separate(ls: seq<Lease>) {
    && (forall i :: 0 <= i < |ls| ==> Injective(Claims(ls[i])))
    && (forall i, j :: 0 <= i < j < |ls| ==> Claims(ls[i]).Values !! Claims(ls[j]).Values)
  }

  lemma UnclaimedByList(ls: seq<Lease>, l: Lease)
    requires DistinctLeases(ls) && forall i :: 0 <= i < |ls| ==> ls[i].uuid != l.uuid
    ensures Unclaimed(LeaseMap(ls), l) <==> forall i :: 0 <= i < |ls| ==> Claims(ls[i]).Values !! Claims(l).Values
  {
    LeaseMapHas(ls);
    LeaseMapKeys(ls);
    hide LeaseMap, Claims, DistinctLeases;
    var m := LeaseMap(ls);
    if Unclaimed(m, l) {
      forall i | 0 <= i < |ls| ensures Claims(ls[i]).Values !! Claims(l).Values {
        forall d | d in Claims(ls[i]).Values ensures d !in Claims(l).Values {
          var s :| s in Claims(ls[i]) && Claims(ls[i])[s] == d;
          assert Holds(m, d, ls[i].uuid, s);
        }
      }
    }
    if forall i :: 0 <= i < |ls| ==> Claims(ls[i]).Values !! Claims(l).Values {
      forall d, v, s | Holds(m, d, v, s) && v != l.uuid ensures d !in Claims(l).Values {
        var i :| 0 <= i < |ls| && ls[i].uuid == v;
        assert d in Claims(ls[i]).Values;
      }
    }
  }

  lemma SeparateSnoc(ls: seq<Lease>)
    requires ls != []
    ensures var n := |ls| - 1;
            Separate(ls) <==> Separate(ls[..n]) && Injective(Claims(ls[n])) && forall i :: 0 <= i < n ==> Claims(ls[i]).Values !! Claims(ls[n]).Values
  {
    hide Claims, Injective;
    assert forall i :: 0 <= i < |ls| - 1 ==> ls[..|ls| - 1][i] == ls[i];
  }

  lemma {:induction false} ImportLeasesIff(catalog: Catalog, st: Store, ls: seq<Lease>)
    requires Blank(st) && DistinctLeases(ls)
    ensures ImportLeases(catalog, st, ls).Ok? <==> (forall i :: 0 <= i < |ls| ==> Known(catalog, ls[i])) && Separate(ls)
    decreases |ls|
  {
    hide Known, SetLease, Exact, SkuExact, Claims, Injective, Unclaimed, LeaseMap;
    if ls != [] {
      var n := |ls| - 1;
      LastIsNew(ls);
      SeparateSnoc(ls);
      ImportLeasesIff(catalog, st, ls[..n]);
      assert forall i :: 0 <= i < n ==> ls[..n][i] == ls[i];
      if ImportLeases(catalog, st, ls[..n]).Ok? {
        ImportLeasesKeeps(catalog, st, ls[..n]);
        SetLeaseIff(ImportLeases(catalog, st, ls[..n]).value, ls[n]);
        UnclaimedByList(ls[..n], ls[n]);
      }
    }
  }

  /** No two items of live leases carry the same domain. */
  predicate DistinctDomains(ls: seq<Lease>) {
    forall i, a, j, b ::
      0 <= i < |ls| && 0 <= a < |ls[i].items| && 0 <= j < |ls| && 0 <= b < |ls[j].items| && Live(ls[i]) && Live(ls[j]) &&
      ls[i].items[a].customDomain == ls[j].items[b].customDomain != "" ==>
        i == j && a == b
  }

  lemma ClaimedIsItem(l: Lease, s: string) returns (a: nat)
    requires LeaseOk(l) && s in Claims(l)
    ensures Live(l) && Claims(l)[s] != "" && ItemHas(l.items, a, s, Claims(l)[s])
  {
    hide ByService, ItemOk, NamesOk, UuidV7.IsValidUUIDv7, IsOnly;
    ClaimsAreItems(l.items, s, Claims(l)[s]);
    a :| ItemHas(l.items, a, s, Claims(l)[s]);
  }

  lemma ItemIsClaimed(l: Lease, a: nat)
    requires LeaseOk(l) && Live(l) && a < |l.items| && l.items[a].customDomain != ""
    ensures var it := l.items[a]; it.serviceName in Claims(l) && Claims(l)[it.serviceName] == it.customDomain && IsOnly(l.items, it.serviceName, a)
  {
    hide ByService, ItemOk, NamesOk, UuidV7.IsValidUUIDv7;
    assert ItemHas(l.items, a, l.items[a].serviceName, l.items[a].customDomain);
    ClaimsAreItems(l.items, l.items[a].serviceName, l.items[a].customDomain);
  }

  lemma SeparateIsDistinct(ls: seq<Lease>)
    requires (forall i :: 0 <= i < |ls| ==> LeaseOk(ls[i])) && Separate(ls)
    ensures DistinctDomains(ls)
  {
    hide LeaseOk, Claims;
    forall i, a, j, b | 0 <= i < |ls| && 0 <= a < |ls[i].items| && 0 <= j < |ls| && 0 <= b < |ls[j].items| &&
                        Live(ls[i]) && Live(ls[j]) && ls[i].items[a].customDomain == ls[j].items[b].customDomain != ""
      ensures i == j && a == b
    {
      ItemIsClaimed(ls[i], a);
      ItemIsClaimed(ls[j], b);
      assert ls[i].items[a].customDomain in Claims(ls[i]).Values && ls[i].items[a].customDomain in Claims(ls[j]).Values;
    }
  }

  lemma DistinctIsSeparate(ls: seq<Lease>)
    requires (forall i :: 0 <= i < |ls| ==> LeaseOk(ls[i])) && DistinctDomains(ls)
    ensures Separate(ls)
  {
    hide LeaseOk, Claims, Live;
    forall i, s, j, s' | 0 <= i <= j < |ls| && s in Claims(ls[i]) && s' in Claims(ls[j]) && Claims(ls[i])[s] == Claims(ls[j])[s']
      ensures i == j && s == s'
    {
      var a := ClaimedIsItem(ls[i], s);
      var b := ClaimedIsItem(ls[j], s');
    }
    forall i, j | 0 <= i < j < |ls| ensures Claims(ls[i]).Values !! Claims(ls[j]).Values {
      forall d | d in Claims(ls[i]).Values ensures d !in Claims(ls[j]).Values {
        var s :| s in Claims(ls[i]) && Claims(ls[i])[s] == d;
      }
    }
  }

  /** No timestamp lies in the future. */
  predicate Past(l: Lease, now: Time) {
    l.createdAt <= now && l.lastSettledAt <= now && (l.state == Closed && l.closedAt.Some? ==> l.closedAt.value <= now)
  }

  /** The catalog has the provider of the lease and, from that provider, its SKUs. */
  predicate Catalogued(catalog: Catalog, l: Lease) {
    && l.providerUuid in catalog.providers
    && forall i :: 0 <= i < |l.items| ==> l.items[i].skuUuid in catalog.skus && catalog.skus[l.items[i].skuUuid].providerUuid == l.providerUuid
  }

  /** A valid genesis is imported exactly when its leases are in the past, the catalog knows what
      they refer to, and no two live items carry the same domain. */
  lemma ImportIff(env: Env, g: GenesisState, blank: Store)
    requires Valid(g) && Blank(blank)
    ensures InitGenesis(env, blank, g).Ok? <==>
            (forall i :: 0 <= i < |g.leases| ==> Past(g.leases[i], env.now) && Catalogued(env.catalog, g.leases[i])) && DistinctDomains(g.leases)
  {
    assert DistinctLeases(g.leases) && forall i :: 0 <= i < |g.leases| ==> LeaseOk(g.leases[i]) by {
      hide ValidParams, CrossChecked, LeaseOk, NotReserved, DistinctAccounts, DistinctLeases;
    }
    hide Valid, LeaseOk, DistinctLeases, ImportLeases, ImportAccounts, Separate, DistinctDomains, Past, Catalogued, TimesOk, Known;
    ImportLeasesIff(env.catalog, blank.(params := g.params), g.leases);
    PastAndCatalogued(env, g.leases);
    if Separate(g.leases) {
      SeparateIsDistinct(g.leases);
    }
    if DistinctDomains(g.leases) {
      DistinctIsSeparate(g.leases);
    }
  }

  lemma PastAndCatalogued(env: Env, ls: seq<Lease>)
    ensures TimesOk(ls, env.now) <==> forall i :: 0 <= i < |ls| ==> Past(ls[i], env.now)
    ensures forall i :: 0 <= i < |ls| ==> (Known(env.catalog, ls[i]) <==> Catalogued(env.catalog, ls[i]))
  {
  }

  // ---------------------------------------------------------------- a valid genesis starts a good store

  lemma OkLeaseCosts(l: Lease)
    requires LeaseOk(l)
    ensures exists d :: Rate(l.items, d) > 0
  {
    hide UuidV7.IsValidUUIDv7, NamesOk, Addressable, ValidFqdn;
    var n := |l.items| - 1;
    assert ItemOk(l.items[n]);
    PositiveRate(l.items[n]);
    assert Rate(l.items, l.items[n].lockedPrice.denom) > 0;
  }

  lemma PositiveRate(it: LeaseItem)
    requires it.quantity > 0 && it.lockedPrice.amount > 0
    ensures AmountOf(Single(ItemRate(it)), it.lockedPrice.denom) > 0
  {
    assert it.lockedPrice.amount * it.quantity > 0;
  }

  lemma OkLeaseReserves(l: Lease, min: nat)
    requires LeaseOk(l) && min > 0
    ensures Reservation(l, min) != NO_COINS
  {
    hide LeaseOk, Reservation, Rate;
    OkLeaseCosts(l);
    var d :| Rate(l.items, d) > 0;
    ReservationAmount(l, min, d);
    assert Rate(l.items, d) * ReservedDuration(l, min) > 0;
    assert AmountOf(Reservation(l, min), d) > 0;
  }

  lemma ValidShelters(g: GenesisState)
    requires Valid(g)
    ensures Sheltered(LeaseMap(g.leases), AccountMap(g.creditAccounts))
  {
    LeaseMapHas(g.leases);
    LeaseMapKeys(g.leases);
    AccountMapAt(g.creditAccounts);
    assert g.params.minLeaseDuration > 0;
    hide LeaseMap, AccountMap, LeaseOk, AccountAgrees, Reservation, ValidParams, NotReserved;
    var m := LeaseMap(g.leases);
    forall u | u in m && Live(m[u]) ensures m[u].tenant in AccountMap(g.creditAccounts) {
      var i :| 0 <= i < |g.leases| && g.leases[i].uuid == u;
      assert g.leases[i] == m[u] && LeaseValid(g.params, g.leases[i]);
      OkLeaseReserves(g.leases[i], g.params.minLeaseDuration);
    }
  }

  lemma ValidTallies(g: GenesisState)
    requires Valid(g)
    ensures Counted(LeaseMap(g.leases), AccountMap(g.creditAccounts))
    ensures Reserves(LeaseMap(g.leases), AccountMap(g.creditAccounts), g.params.minLeaseDuration)
    ensures AccountsFiled(AccountMap(g.creditAccounts)) && LeasesFiled(LeaseMap(g.leases))
    ensures |LeaseMap(g.leases)| <= g.leaseSequence
  {
    AccountMapAt(g.creditAccounts);
    LeaseMapSize(g.leases);
    LeaseMapKeys(g.leases);
    hide LeaseMap, AccountMap, LeaseValid, Reservation, ValidParams, Sum, SumList, ReservedOf, ActiveOf, PendingOf, AccountAgrees;
    var accounts := AccountMap(g.creditAccounts);
    forall t | t in accounts
      ensures accounts[t].tenant == t && accounts[t].creditAddress == Credit(t)
      ensures accounts[t].activeLeaseCount == Sum(LeaseMap(g.leases), ActiveOf(t))
      ensures accounts[t].pendingLeaseCount == Sum(LeaseMap(g.leases), PendingOf(t))
      ensures forall d :: AmountOf(accounts[t].reservedAmounts, d) == Sum(LeaseMap(g.leases), ReservedOf(t, d, g.params.minLeaseDuration))
    {
      var i :| 0 <= i < |g.creditAccounts| && g.creditAccounts[i].tenant == t;
      assert accounts[t] == g.creditAccounts[i] && AccountOk(g.creditAccounts[i]);
      AccountAgreesIff(g, g.creditAccounts[i], LeaseMap(g.leases));
    }
  }

  lemma ValidIsOk(g: GenesisState)
    requires Valid(g)
    ensures AllOk(LeaseMap(g.leases)) && ValidParams(g.params) && g.params.minLeaseDuration > 0
    ensures forall u :: u in LeaseMap(g.leases) ==>
              var l := LeaseMap(g.leases)[u];
              l.state != Unspecified && (l.state == Closed ==> l.closedAt.Some?) && NotReserved(g.params, l)
  {
    LeaseMapHas(g.leases);
    LeaseMapKeys(g.leases);
    hide LeaseMap, LeaseOk, NotReserved, CrossChecked, DistinctLeases, DistinctAccounts;
    var m := LeaseMap(g.leases);
    forall u | u in m
      ensures LeaseOk(m[u]) && m[u].state != Unspecified && (m[u].state == Closed ==> m[u].closedAt.Some?) && NotReserved(g.params, m[u])
    {
      var i :| 0 <= i < |g.leases| && g.leases[i].uuid == u;
      assert g.leases[i] == m[u] && LeaseValid(g.params, g.leases[i]);
    }
  }

  /** What an import leaves behind, record by record. */
  lemma ImportShape(env: Env, g: GenesisState, blank: Store)
    requires DistinctLeases(g.leases) && Blank(blank) && InitGenesis(env, blank, g).Ok?
    ensures var st := InitGenesis(env, blank, g).value;
            && st.params == g.params && st.sequence == g.leaseSequence && st.leases == LeaseMap(g.leases)
            && st.accounts == AccountMap(g.creditAccounts) && st.creditIndex == CreditIndexOf(st.accounts)
            && Exact(st.domainIndex, st.leases) && SkuExact(st.skuIndex, st.leases)
  {
    hide Exact, SkuExact, LeaseMap, AccountMap, CreditIndexOf, ImportLeases, ImportAccounts, DistinctLeases, TimesOk;
    var st0 := blank.(params := g.params);
    ImportLeasesKeeps(env.catalog, st0, g.leases);
    ImportedAccounts(ImportLeases(env.catalog, st0, g.leases).value, g.creditAccounts);
  }

  lemma FiledIsKeyed(st: Store)
    requires LeasesFiled(st.leases) && AccountsFiled(st.accounts) && st.creditIndex == CreditIndexOf(st.accounts)
    ensures Keyed(st)
  {
    hide LeasesFiled, AccountsFiled, CreditIndexOf;
  }

  lemma PartsAreIndexed(st: Store)
    requires Keyed(st) && SkuExact(st.skuIndex, st.leases) && Exact(st.domainIndex, st.leases)
    requires Sheltered(st.leases, st.accounts) && Counted(st.leases, st.accounts) && |st.leases| <= st.sequence
    ensures Indexed(st)
  {
    hide Keyed, SkuExact, Exact, Sheltered, Counted;
  }

  /** A genesis that validation accepts starts the chain in a store with the index, counter and
      reservation invariants and well-formed records. */
  lemma ValidGenesisIsGood(env: Env, g: GenesisState, blank: Store)
    requires Valid(g) && Blank(blank) && InitGenesis(env, blank, g).Ok?
    ensures var st := InitGenesis(env, blank, g).value;
            && Good(st) && ReservedExactly(st) && AllOk(st.leases) && ValidParams(st.params)
            && st.leases == LeaseMap(g.leases) && st.params == g.params && st.sequence == g.leaseSequence
            && forall u :: u in st.leases ==>
                 && st.leases[u].state != Unspecified && (st.leases[u].state == Closed ==> st.leases[u].closedAt.Some?)
                 && NotReserved(st.params, st.leases[u])
  {
    assert DistinctLeases(g.leases);
    hide Valid, Blank, InitGenesis, DistinctLeases, Keyed, Indexed, Exact, SkuExact, Counted, Sheltered, Reserves, LeaseMap, AccountMap, CreditIndexOf, AccountsFiled, LeasesFiled, ValidParams, AllOk, NotReserved;
    ValidShelters(g);
    ValidTallies(g);
    ValidIsOk(g);
    ImportShape(env, g, blank);
    FiledIsKeyed(InitGenesis(env, blank, g).value);
    PartsAreIndexed(InitGenesis(env, blank, g).value);
  }
}
