/** The billing keeper: the store fields that its operations update in place.  Staged work is
    done on a copy of the keeper and written back when every step has succeeded.  Each
    method is proved to refine its counterpart in `Ledger`. */
module BillingKeeper {
  import opened Coins
  import opened Types
  import opened Reservations
  import opened Accrual
  import opened DomainIndex
  import opened Names
  import opened Text
  import opened Ledger
  import opened Invariants
  import opened Genesis
  import opened Batches
  import opened Payments

  /** A method refines an outcome of the ledger: same refusal with nothing changed, or same
      new store. */
  ghost predicate Outcome<T>(r: Result<T>, spec: Result<Store>, before: Store, after: Store) {
    if spec.Ok? then r.Ok? && after == spec.value
    else r.Err? && r.error == spec.error && after == before
  }

  /** The same for work on a staged copy, which is dropped after a refusal. */
  ghost predicate StagedOutcome<T>(r: Result<T>, spec: Result<Store>, after: Store) {
    if spec.Ok? then r.Ok? && after == spec.value
    else r.Err? && r.error == spec.error
  }

  datatype SettlementResult = SettlementResult(transferAmounts: Coins, accruedAmounts: Coins, creditBalanceAfter: Coins)

  // ---------------------------------------------------------------- lemmas about the loops

  /** A refusal part of the way through the install loop is a refusal of the whole. */
  lemma InstallFails(idx: Index, u: Uuid, new_: map<string, string>, order: seq<string>)
    requires (forall s :: s in order ==> s in new_) && forall i, j :: 0 <= i < j < |order| ==> order[i] != order[j]
    requires InstallInOrder(idx, u, new_, order).Err?
    ensures !Installable(idx, u, new_)
  {
    InstallAnyOrder(idx, u, new_, order);
    var done := map s | s in order :: new_[s];
    assert forall s :: s in done ==> s in new_ && new_[s] == done[s];
    hide InstallInOrder;
    assert Installable(idx, u, new_) ==> Installable(idx, u, done);
  }

  lemma InstallNone(idx: Index, u: Uuid, new_: map<string, string>)
    ensures InstallInOrder(idx, u, new_, []) == Ok(idx)
  {
  }

  lemma InstallNext(idx: Index, u: Uuid, new_: map<string, string>, order: seq<string>, s: string)
    requires (forall x :: x in order ==> x in new_) && s in new_ && InstallInOrder(idx, u, new_, order).Ok?
    ensures InstallInOrder(idx, u, new_, order + [s]) == InstallOne(InstallInOrder(idx, u, new_, order).value, u, s, new_[s])
  {
    assert (order + [s])[..|order|] == order;
  }

  lemma ByServiceNext(items: seq<LeaseItem>, i: nat)
    requires i < |items|
    ensures ByService(items[..i + 1]) ==
            if items[i].customDomain != "" then ByService(items[..i])[items[i].serviceName := items[i].customDomain]
            else ByService(items[..i])
  {
    assert items[..i + 1][..i] == items[..i];
  }

  /** Domains of the items by service name. */
  method CollectByService(items: seq<LeaseItem>) returns (m: map<string, string>)
    ensures m == ByService(items)
  {
    m := map[];
    for i := 0 to |items|
      invariant m == ByService(items[..i])
    {
      ByServiceNext(items, i);
      if items[i].customDomain != "" {
        m := m[items[i].serviceName := items[i].customDomain];
      }
    }
    assert items[..|items|] == items;
  }

  /** `order` lists the keys of `m` that have been visited. */
  ghost predicate Visited(order: seq<string>, m: map<string, string>, todo: set<string>) {
    && todo <= m.Keys
    && (forall s :: s in order <==> s in m && s !in todo)
    && forall i, j :: 0 <= i < j < |order| ==> order[i] != order[j]
  }

  lemma VisitedNext(order: seq<string>, m: map<string, string>, todo: set<string>, s: string)
    requires Visited(order, m, todo) && s in todo
    ensures Visited(order + [s], m, todo - {s})
    ensures (order + [s])[..|order|] == order
  {
  }

  /** Per denomination the accrued amount, or the balance where that is less. */
  method CappedByBalance(accruedAmounts: Coins, creditBalances: Coins) returns (result: Coins)
    ensures result == Meet(accruedAmounts, creditBalances)
  {
    result := NO_COINS;
    var todo := accruedAmounts.Keys;
    while todo != {}
      invariant todo <= accruedAmounts.Keys
      invariant forall d :: AmountOf(result, d) ==
                            if d in accruedAmounts && d !in todo then AmountOf(Meet(accruedAmounts, creditBalances), d) else 0
      decreases |todo|
    {
      var d :| d in todo;
      var balance := AmountOf(creditBalances, d);
      if balance < accruedAmounts[d] {
        if balance > 0 {
          result := Add(result, Single(Coin(d, balance)));
        }
      } else {
        result := Add(result, Single(Coin(d, accruedAmounts[d])));
      }
      todo := todo - {d};
    }
    CoinsEqual(result, Meet(accruedAmounts, creditBalances));
  }


  /** A lease that cannot be expired is passed over. */
  lemma ExpiryIsLenient(env: Env, st: Store, u: Uuid)
    ensures One(OpExpire, env, st, u).Ok?
    ensures One(OpExpire, env, st, u).value.st ==
            if u in st.leases && ExpireOne(st, env.now, st.leases[u]).Ok? then ExpireOne(st, env.now, st.leases[u]).value.st else st
  {
    hide ExpireOne;
  }

  // ---------------------------------------------------------------- custom domains

  lemma OnlyItemName(items: seq<LeaseItem>, service: string, i: nat)
    requires IsOnly(items, service, i)
    ensures items[i].serviceName == service
  {
  }

  /** The index entry of the domain leads to this lease and service. */
  predicate Resolves(idx: Index, leases: map<Uuid, Lease>, domain: string, found: (Lease, string)) {
    domain in idx && idx[domain].leaseUuid in leases && found == (leases[idx[domain].leaseUuid], idx[domain].serviceName)
  }

  lemma HolderExists(leases: map<Uuid, Lease>, d: string, u: Uuid, s: string)
    requires Holds(leases, d, u, s)
    ensures u in leases
  {
  }

  method FindLeaseItemByServiceName(lease: Lease, serviceName: string) returns (r: Result<nat>)
    ensures r == FindItem(lease, serviceName)
  {
    var items := lease.items;
    if |items| > 1 && items[0].serviceName == "" {
      return Err(AmbiguousLeaseItem);
    }
    var idx, matches := 0, 0;
    for i := 0 to |items|
      invariant matches == 0 <==> forall j :: 0 <= j < i ==> items[j].serviceName != serviceName
      invariant matches > 0 ==> idx < i && items[idx].serviceName == serviceName
      invariant matches == 1 ==> forall j :: 0 <= j < i && items[j].serviceName == serviceName ==> j == idx
      invariant matches > 1 ==> exists j :: 0 <= j < idx && items[j].serviceName == serviceName
    {
      if items[i].serviceName == serviceName {
        matches, idx := matches + 1, i;
      }
    }
    if matches == 0 {
      return Err(LeaseItemNotFound);
    }
    if matches == 1 {
      assert IsOnly(items, serviceName, idx);
      return Ok(idx);
    }
    return Err(AmbiguousLeaseItem);
  }

  // ---------------------------------------------------------------- genesis

  lemma ImportNone(catalog: Catalog, st: Store)
    ensures ImportLeases(catalog, st, []) == Ok(st)
    ensures forall st' :: ImportAccounts(st', []) == st'
  {
  }

  lemma ImportNext(catalog: Catalog, st: Store, ls: seq<Lease>, i: nat)
    requires i < |ls| && ImportLeases(catalog, st, ls[..i]).Ok?
    ensures ImportLeases(catalog, st, ls[..i + 1]) ==
            if !Known(catalog, ls[i]) then Err(InvalidLease)
            else Ledger.SetLease(ImportLeases(catalog, st, ls[..i]).value, ls[i])
  {
    hide Known, Ledger.SetLease;
    assert ls[..i + 1][..i] == ls[..i];
  }

  lemma ImportNextAccount(st: Store, cas: seq<CreditAccount>, i: nat)
    requires i < |cas|
    ensures ImportAccounts(st, cas[..i + 1]) == SetAccount(ImportAccounts(st, cas[..i]), cas[i])
  {
    hide SetAccount;
    assert cas[..i + 1][..i] == cas[..i];
  }

  lemma {:induction false} ImportFails(catalog: Catalog, st: Store, ls: seq<Lease>, i: nat)
    requires i <= |ls| && ImportLeases(catalog, st, ls[..i]).Err?
    ensures ImportLeases(catalog, st, ls) == ImportLeases(catalog, st, ls[..i])
    decreases |ls|
  {
    hide Known, Ledger.SetLease;
    if i == |ls| {
      assert ls[..i] == ls;
    } else {
      var n := |ls| - 1;
      assert ls[..n][..i] == ls[..i];
      ImportFails(catalog, st, ls[..n], i);
    }
  }

  method ValidateWithBlockTime(ls: seq<Lease>, blockTime: Time) returns (ok: bool)
    ensures ok <==> TimesOk(ls, blockTime)
  {
    for i := 0 to |ls|
      invariant TimesOk(ls[..i], blockTime)
    {
      assert ls[..i + 1] == ls[..i] + [ls[i]];
      if ls[i].lastSettledAt > blockTime || ls[i].createdAt > blockTime {
        return false;
      }
      if ls[i].state == Closed && ls[i].closedAt.Some? {
        if ls[i].closedAt.value > blockTime {
          return false;
        }
      }
    }
    assert ls[..|ls|] == ls;
    return true;
  }

  /** The provider exists and so does every SKU, under that provider. */
  method CheckReferences(catalog: Catalog, lease: Lease) returns (ok: bool)
    ensures ok <==> Known(catalog, lease)
  {
    if lease.providerUuid !in catalog.providers {
      return false;
    }
    for i := 0 to |lease.items|
      invariant forall j :: 0 <= j < i ==>
                  lease.items[j].skuUuid in catalog.skus && catalog.skus[lease.items[j].skuUuid].providerUuid == lease.providerUuid
    {
      var sku := lease.items[i].skuUuid;
      if sku !in catalog.skus || catalog.skus[sku].providerUuid != lease.providerUuid {
        return false;
      }
    }
    return true;
  }

  method ListLeases(leases: map<Uuid, Lease>) returns (ls: seq<Lease>)
    requires LeasesFiled(leases)
    ensures |ls| == |leases| && forall i :: 0 <= i < |ls| ==> ls[i].uuid == Sorted(leases.Keys)[i]
    ensures DistinctLeases(ls) && LeaseMap(ls) == leases
  {
    var keys := Sorted(leases.Keys);
    ls := [];
    for i := 0 to |keys|
      invariant |ls| == i && forall j :: 0 <= j < i ==> ls[j] == leases[keys[j]]
    {
      ls := ls + [leases[keys[i]]];
    }
    assert |leases| == |leases.Keys|;
    ListedLeases(leases, ls);
  }

  lemma ListedLeases(leases: map<Uuid, Lease>, ls: seq<Lease>)
    requires LeasesFiled(leases)
    requires var keys := Sorted(leases.Keys);
             |ls| == |keys| && forall j :: 0 <= j < |keys| ==> keys[j] in leases && ls[j] == leases[keys[j]]
    ensures DistinctLeases(ls) && LeaseMap(ls) == leases
    ensures forall i :: 0 <= i < |ls| ==> ls[i].uuid == Sorted(leases.Keys)[i]
  {
    hide Sorted, Increasing, LeaseMap;
    var keys := Sorted(leases.Keys);
    assert forall i :: 0 <= i < |ls| ==> ls[i].uuid == keys[i];
    IncreasingIsDistinct(keys);
    assert DistinctLeases(ls);
    hide DistinctLeases;
    LeaseMapHas(ls);
    LeaseMapKeys(ls);
    forall u | u in leases ensures u in LeaseMap(ls) {
      assert u in keys;
      var i :| 0 <= i < |keys| && keys[i] == u;
      assert ls[i].uuid == u;
    }
    forall u | u in LeaseMap(ls) ensures u in leases && LeaseMap(ls)[u] == leases[u] {
      var i :| 0 <= i < |ls| && ls[i].uuid == u;
    }
  }

  /** The accounts, each once; their order plays no part in the import. */
  method ListAccounts(accounts: map<Address, CreditAccount>) returns (cas: seq<CreditAccount>)
    requires AccountsFiled(accounts)
    ensures DistinctAccounts(cas) && AccountMap(cas) == accounts
  {
    cas := [];
    var todo := accounts.Keys;
    while todo != {}
      invariant ListsAccounts(cas, accounts, todo)
      decreases |todo|
    {
      var t :| t in todo;
      ListsNext(cas, accounts, todo, t);
      cas := cas + [accounts[t]];
      todo := todo - {t};
    }
    ListedAccounts(accounts, cas);
  }

  /** The list holds each account whose tenant is not in `todo`, once. */
  ghost predicate ListsAccounts(cas: seq<CreditAccount>, accounts: map<Address, CreditAccount>, todo: set<Address>) {
    && todo <= accounts.Keys && DistinctAccounts(cas)
    && (forall i :: 0 <= i < |cas| ==> cas[i].tenant in accounts && cas[i].tenant !in todo && accounts[cas[i].tenant] == cas[i])
    && forall t :: t in accounts && t !in todo ==> accounts[t] in cas
  }

  lemma ListsNext(cas: seq<CreditAccount>, accounts: map<Address, CreditAccount>, todo: set<Address>, t: Address)
    requires AccountsFiled(accounts) && ListsAccounts(cas, accounts, todo) && t in todo
    ensures ListsAccounts(cas + [accounts[t]], accounts, todo - {t})
  {
    var cas' := cas + [accounts[t]];
    assert cas'[|cas|] == accounts[t];
    assert forall ca :: ca in cas ==> ca in cas';
  }

  lemma ListedAccounts(accounts: map<Address, CreditAccount>, cas: seq<CreditAccount>)
    requires AccountsFiled(accounts) && ListsAccounts(cas, accounts, {})
    ensures AccountMap(cas) == accounts
  {
    AccountMapAt(cas);
    hide AccountMap;
    forall t | t in accounts ensures t in AccountMap(cas) && AccountMap(cas)[t] == accounts[t] {
      var i :| 0 <= i < |cas| && cas[i] == accounts[t];
      assert cas[i].tenant == t;
    }
  }

  // ---------------------------------------------------------------- settlement and closing

  lemma NothingToInstall(idx: Index, u: Uuid)
    ensures Installable(idx, u, map[]) && Installed(idx, u, map[]) == idx
  {
    InstalledIsUnique(Installed(idx, u, map[]), idx, idx, u, map[]);
  }

  lemma MonusNothing(c: Coins)
    ensures Monus(c, NO_COINS) == c
  {
    CoinsEqual(Monus(c, NO_COINS), c);
  }

  /** The store with another minimum duration. */
  function WithMinimum(st: Store, minLeaseDuration: nat): Store {
    st.(params := st.params.(minLeaseDuration := minLeaseDuration))
  }

  lemma SetLeaseIgnoresParams(st: Store, l: Lease, params: Params)
    ensures var r, r' := Ledger.SetLease(st, l), Ledger.SetLease(st.(params := params), l);
            if r.Ok? then r' == Ok(r.value.(params := params)) else r' == r
  {
    hide Reconcile, SkuEntries;
  }

  /** Closing with a given minimum duration, step by step. */
  lemma FinishWithMinimum(st: Store, env: Env, l: Lease, minLeaseDuration: nat)
    ensures var spec := Finish(WithMinimum(st, minLeaseDuration), env, l, true, CREDIT_EXHAUSTED, false);
            var s := Settle(st.bank, env.catalog, l, env.now, true);
            if s.Err? then spec == Err(s.error)
            else
              var w := Ledger.SetLease(st.(bank := s.value.bank), ClosedLease(l, env.now, CREDIT_EXHAUSTED));
              if w.Err? then spec == Err(w.error)
              else if l.tenant !in st.accounts then spec == Err(CreditAccountNotFound)
              else
                var ca := Changed(st.accounts[l.tenant], DropActive(Reservation(l, minLeaseDuration)));
                && spec.Ok? && spec.value.st.(params := st.params) == SetAccount(w.value, ca)
                && spec.value.receipts == [MakeReceipt(env.catalog, l, env.now, s.value, true)]
                && spec.value.st.params == WithMinimum(st, minLeaseDuration).params
  {
    hide Settle, Ledger.SetLease, Reservation, MakeReceipt, Changed, ClosedLease;
    var s := Settle(st.bank, env.catalog, l, env.now, true);
    if s.Ok? {
      var closed := ClosedLease(l, env.now, CREDIT_EXHAUSTED);
      assert closed.tenant == l.tenant by { ClosedKeepsTenant(l, env.now); }
      SetLeaseIgnoresParams(st.(bank := s.value.bank), closed, WithMinimum(st, minLeaseDuration).params);
      SetLeaseKeepsRest(st.(bank := s.value.bank), closed);
    }
  }

  /** Dropping a stored lease of a consistent store is never reported. */
  lemma NeverReported(st: Store, l: Lease)
    ensures Consistent(st) && IsStored(st.leases, l) && l.tenant in st.accounts ==>
              && (l.state == Pending ==> !Inconsistent(st.accounts[l.tenant], DropPending(Reservation(l, st.params.minLeaseDuration))))
              && (l.state == Active ==> !Inconsistent(st.accounts[l.tenant], DropActive(Reservation(l, st.params.minLeaseDuration))))
  {
    hide Consistent, Inconsistent, Reservation;
    if Consistent(st) && IsStored(st.leases, l) && Live(l) {
      NeverInconsistent(st, l.uuid);
    }
  }

  lemma ClosedKeepsTenant(l: Lease, now: Time)
    ensures ClosedLease(l, now, CREDIT_EXHAUSTED).tenant == l.tenant
  {
  }

  lemma SameMinimumIsSameStore(st: Store)
    ensures WithMinimum(st, st.params.minLeaseDuration) == st
  {
  }

  lemma StoredUnderKey(st: Store, u: Uuid)
    requires Consistent(st) && u in st.leases
    ensures IsStored(st.leases, st.leases[u])
  {
    hide Exact, SkuExact, Sheltered, Counted, ReservedExactly, AccountsFiled, CreditIndexOf;
  }

  /** What the listed denominations add up to. */
  function Listed(held: Coins, denoms: seq<string>, d: string): nat {
    if denoms == [] then 0
    else Listed(held, denoms[..|denoms| - 1], d) + if denoms[|denoms| - 1] == d then AmountOf(held, d) else 0
  }

  lemma ListedNone(held: Coins)
    ensures forall d :: Listed(held, [], d) == 0
  {
  }

  lemma ListedNext(held: Coins, denoms: seq<string>, i: nat)
    requires i < |denoms|
    ensures forall d :: Listed(held, denoms[..i + 1], d) == Listed(held, denoms[..i], d) + if denoms[i] == d then AmountOf(held, d) else 0
  {
    assert denoms[..i + 1][..i] == denoms[..i];
  }

  lemma {:induction false} ListedOnce(held: Coins, denoms: seq<string>, d: string)
    requires forall i, j :: 0 <= i < j < |denoms| ==> denoms[i] != denoms[j]
    ensures Listed(held, denoms, d) == if d in denoms then AmountOf(held, d) else 0
    decreases |denoms|
  {
    if denoms != [] {
      var n := |denoms| - 1;
      ListedOnce(held, denoms[..n], d);
      assert denoms == denoms[..n] + [denoms[n]];
    }
  }

  lemma SameReservation(a: Lease, b: Lease, min: nat)
    requires a.items == b.items && a.minLeaseDurationAtCreation == b.minLeaseDurationAtCreation
    ensures Reservation(a, min) == Reservation(b, min)
  {
  }

  lemma SetLeaseKeepsRest(st: Store, l: Lease)
    ensures var r := Ledger.SetLease(st, l);
            r.Ok? ==> r.value.accounts == st.accounts && r.value.params == st.params && r.value.bank == st.bank
                      && r.value.creditIndex == st.creditIndex && r.value.sequence == st.sequence
  {
    hide Reconcile;
  }

  // ---------------------------------------------------------------- the keeper

  class Keeper {
    var params: Params
    var leases: map<Uuid, Lease>
    var sequence: nat
    var accounts: map<Address, CreditAccount>
    var creditIndex: map<Address, Address>
    var skuIndex: set<(string, Uuid)>
    var domainIndex: Index
    var bank: Bank

    function State(): Store
      reads this
    {
      Store(params, leases, sequence, accounts, creditIndex, skuIndex, domainIndex, bank)
    }

    /** A staged copy of a store. */
    constructor Stage(st: Store)
      ensures State() == st
    {
      params, leases, sequence, accounts := st.params, st.leases, st.sequence, st.accounts;
      creditIndex, skuIndex, domainIndex, bank := st.creditIndex, st.skuIndex, st.domainIndex, st.bank;
    }

    /** Commit a staged copy. */
    method Write(staged: Keeper)
      modifies this
      ensures State() == old(staged.State())
    {
      params, leases, sequence, accounts := staged.params, staged.leases, staged.sequence, staged.accounts;
      creditIndex, skuIndex, domainIndex, bank := staged.creditIndex, staged.skuIndex, staged.domainIndex, staged.bank;
    }

    // -------------------------------------------------------------- records and indexes

    /** Drop the claims of the previous record that the new one does not keep, in any order. */
    method ReleaseClaims(prevByService: map<string, string>, newByService: map<string, string>, editable: bool, lease: Lease)
      requires Claims(lease) == if editable then newByService else map[]
      modifies this`domainIndex
      ensures domainIndex == Released(old(domainIndex), lease.uuid, prevByService, Claims(lease))
    {
      hide Claims, Released;
      var todo := prevByService.Keys;
      ghost var order: seq<string> := [];
      while todo != {}
        invariant Visited(order, prevByService, todo)
        invariant domainIndex == ReleaseInOrder(old(domainIndex), lease.uuid, prevByService, Claims(lease), order)
        decreases |todo|
      {
        var s :| s in todo;
        VisitedNext(order, prevByService, todo, s);
        order := order + [s];
        todo := todo - {s};
        var prevDomain := prevByService[s];
        if editable && s in newByService && newByService[s] == prevDomain {
          continue;
        }
        if prevDomain in domainIndex {
          var existing := domainIndex[prevDomain];
          if existing.leaseUuid != lease.uuid || existing.serviceName != s {
            continue;
          }
          domainIndex := domainIndex - {prevDomain};
        }
      }
      ReleaseAnyOrder(old(domainIndex), lease.uuid, prevByService, Claims(lease), order);
      assert (map s | s in order :: prevByService[s]) == prevByService;
    }

    /** Claim the domains of the new record, in any order. */
    method InstallClaims(newByService: map<string, string>, uuid: Uuid) returns (r: Result<()>)
      modifies this`domainIndex
      ensures r.Ok? <==> Installable(old(domainIndex), uuid, newByService)
      ensures r.Ok? ==> domainIndex == Installed(old(domainIndex), uuid, newByService)
      ensures r.Err? ==> r.error == CustomDomainAlreadyClaimed
    {
      hide Installable, Installed, InstallInOrder;
      var todo := newByService.Keys;
      ghost var order: seq<string> := [];
      InstallNone(domainIndex, uuid, newByService);
      while todo != {}
        invariant Visited(order, newByService, todo)
        invariant Ok(domainIndex) == InstallInOrder(old(domainIndex), uuid, newByService, order)
        decreases |todo|
      {
        var s :| s in todo;
        VisitedNext(order, newByService, todo, s);
        InstallNext(old(domainIndex), uuid, newByService, order, s);
        order := order + [s];
        todo := todo - {s};
        var newDomain := newByService[s];
        if newDomain in domainIndex {
          var existing := domainIndex[newDomain];
          if existing.leaseUuid == uuid && existing.serviceName == s {
            continue;
          }
          InstallFails(old(domainIndex), uuid, newByService, order);
          return Err(CustomDomainAlreadyClaimed);
        }
        domainIndex := domainIndex[newDomain := CustomDomainTarget(uuid, s)];
      }
      InstallAnyOrder(old(domainIndex), uuid, newByService, order);
      assert (map s | s in order :: newByService[s]) == newByService;
      return Ok(());
    }

    method ReconcileCustomDomainIndex(prev: Option<Lease>, lease: Lease) returns (r: Result<()>)
      modifies this`domainIndex
      ensures var spec := Reconcile(old(domainIndex), prev, lease);
              if spec.Ok? then r.Ok? && domainIndex == spec.value else r.Err? && r.error == spec.error
    {
      hide Released, Installable, Installed, ByService;
      var editable := lease.state == Pending || lease.state == Active;
      var prevByService: map<string, string> := map[];
      if prev.Some? {
        prevByService := CollectByService(prev.value.items);
      }
      var newByService := CollectByService(lease.items);
      ReleaseClaims(prevByService, newByService, editable, lease);
      if !editable {
        NothingToInstall(domainIndex, lease.uuid);
        return Ok(());
      }
      r := InstallClaims(newByService, lease.uuid);
    }

    method IndexSkus(lease: Lease)
      modifies this`skuIndex
      ensures skuIndex == old(skuIndex) + SkuEntries(lease)
    {
      for i := 0 to |lease.items|
        invariant skuIndex == old(skuIndex) + set it | it in lease.items[..i] :: (it.skuUuid, lease.uuid)
      {
        assert lease.items[..i + 1] == lease.items[..i] + [lease.items[i]];
        skuIndex := skuIndex + {(lease.items[i].skuUuid, lease.uuid)};
      }
      assert lease.items[..|lease.items|] == lease.items;
    }

    method SetLease(lease: Lease) returns (r: Result<()>)
      modifies this
      ensures Outcome(r, Ledger.SetLease(old(State()), lease), old(State()), State())
    {
      hide Reconcile, SkuEntries;
      var staged := new Keeper.Stage(State());
      var prev := if lease.uuid in staged.leases then Some(staged.leases[lease.uuid]) else None;
      staged.leases := staged.leases[lease.uuid := lease];
      staged.IndexSkus(lease);
      var _ :- staged.ReconcileCustomDomainIndex(prev, lease);
      Write(staged);
      return Ok(());
    }

    method SetCreditAccount(ca: CreditAccount)
      modifies this
      ensures State() == SetAccount(old(State()), ca)
      ensures old(Keyed(State())) && ca.creditAddress == Credit(ca.tenant) ==> Keyed(State())
    {
      if Keyed(State()) && ca.creditAddress == Credit(ca.tenant) {
        SetAccountKeepsKeyed(State(), ca);
      }
      hide Keyed;
      accounts := accounts[ca.tenant := ca];
      creditIndex := creditIndex[Credit(ca.tenant) := ca.tenant];
    }

    // -------------------------------------------------------------- settlement

    /** A denomination listed several times is counted as often. */
    method GetCreditBalancesForDenoms(tenant: Address, denoms: seq<string>) returns (coins: Coins)
      ensures forall d :: AmountOf(coins, d) == Listed(Balance(bank, Credit(tenant)), denoms, d)
      ensures (forall i, j :: 0 <= i < j < |denoms| ==> denoms[i] != denoms[j]) ==>
                coins == Restrict(Balance(bank, Credit(tenant)), set d | d in denoms)
    {
      hide Listed, Balance;
      coins := NO_COINS;
      var held := Balance(bank, Credit(tenant));
      ListedNone(held);
      assert denoms[..0] == [];
      for i := 0 to |denoms|
        invariant forall d :: AmountOf(coins, d) == Listed(held, denoms[..i], d)
      {
        ListedNext(held, denoms, i);
        var amount := AmountOf(held, denoms[i]);
        if amount > 0 {
          coins := Add(coins, Single(Coin(denoms[i], amount)));
        }
      }
      assert denoms[..|denoms|] == denoms;
      if forall i, j :: 0 <= i < j < |denoms| ==> denoms[i] != denoms[j] {
        forall d ensures AmountOf(coins, d) == AmountOf(Restrict(held, set d | d in denoms), d) {
          ListedOnce(held, denoms, d);
        }
        CoinsEqual(coins, Restrict(held, set d | d in denoms));
      }
    }

    /** Credit of the tenant in the lease's denominations. */
    method LeaseCredit(lease: Lease) returns (coins: Coins)
      ensures coins == Available(bank, lease)
    {
      var denoms := LeaseItemDenoms(lease.items);
      coins := GetCreditBalancesForDenoms(lease.tenant, denoms);
      assert (set d | d in denoms) == Denoms(lease.items);
    }

    method PerformSettlementCore(env: Env, lease: Lease, settleTime: Time, silentOnOverflow: bool)
      returns (r: Result<SettlementResult>)
      modifies this`bank
      ensures var spec := Settle(old(bank), env.catalog, lease, settleTime, silentOnOverflow);
              if spec.Ok? then
                && r.Ok? && bank == spec.value.bank
                && r.value.transferAmounts == spec.value.transfer && r.value.accruedAmounts == spec.value.accrued
                && (Sub(settleTime, lease.lastSettledAt) > 0 ==>
                      r.value.creditBalanceAfter == Monus(Available(old(bank), lease), spec.value.transfer))
              else r.Err? && r.error == spec.error && bank == old(bank)
    {
      hide Available, Accrued, Overflows, Meet, Monus, Send;
      var duration := Sub(settleTime, lease.lastSettledAt);
      if duration <= 0 {
        return Ok(SettlementResult(NO_COINS, NO_COINS, NO_COINS));
      }
      var accrual := CalculateTotalAccruedForLease(lease.items, duration);
      if accrual.Err? && !silentOnOverflow {
        return Err(InvalidCreditOperation);
      }
      var creditBalances := LeaseCredit(lease);
      var accruedAmounts := if accrual.Err? then creditBalances else accrual.value;
      MonusNothing(creditBalances);
      MeetNothing(creditBalances);
      if accruedAmounts == NO_COINS {
        return Ok(SettlementResult(NO_COINS, NO_COINS, creditBalances));
      }
      var transferAmounts := CalculateTransferAmounts(accruedAmounts, creditBalances);
      if transferAmounts == NO_COINS {
        return Ok(SettlementResult(NO_COINS, accruedAmounts, creditBalances));
      }
      if lease.providerUuid !in env.catalog.providers {
        return Err(ProviderNotFound);
      }
      var after :- Send(bank, Credit(lease.tenant), env.catalog.providers[lease.providerUuid].payoutAddress, transferAmounts);
      bank := after;
      return Ok(SettlementResult(transferAmounts, accruedAmounts, Monus(creditBalances, transferAmounts)));
    }

    /** The query for what a provider could withdraw from a lease now. */
    method CalculateWithdrawableForLease(now: Time, lease: Lease) returns (result: Coins)
      ensures result == Withdrawable(bank, lease, now)
    {
      hide Available, Accrued, Overflows;
      var duration;
      if lease.state == Active {
        duration := Sub(now, lease.lastSettledAt);
      } else if lease.closedAt.Some? {
        duration := Sub(lease.closedAt.value, lease.lastSettledAt);
      } else {
        return NO_COINS;
      }
      if duration <= 0 {
        return NO_COINS;
      }
      var accrual := CalculateTotalAccruedForLease(lease.items, duration);
      if accrual.Err? {
        return NO_COINS;
      }
      var accruedAmounts := accrual.value;
      var creditBalances := LeaseCredit(lease);
      MeetNothing(creditBalances);
      if accruedAmounts == NO_COINS {
        return NO_COINS;
      }
      result := CappedByBalance(accruedAmounts, creditBalances);
    }

    /** The time to close the lease at, when its credit is exhausted. */
    method ShouldAutoCloseLease(now: Time, lease: Lease) returns (r: Result<Option<Time>>)
      ensures var spec := ShouldAutoClose(bank, lease, now);
              if spec.Ok? then r == Ok(if spec.value then Some(now) else None) else r == Err(spec.error)
    {
      hide Available, Accrued, Overflows;
      if lease.state != Active {
        return Ok(None);
      }
      var duration := Sub(now, lease.lastSettledAt);
      if duration < 0 {
        return Err(InvalidLease);
      }
      var creditBalances := LeaseCredit(lease);
      var shouldClose := false;
      if duration > 0 {
        var accrual := CalculateTotalAccruedForLease(lease.items, duration);
        if accrual.Err? {
          shouldClose := true;
        } else {
          var todo := accrual.value.Keys;
          while todo != {} && !shouldClose
            invariant todo <= accrual.value.Keys
            invariant shouldClose <==> exists d :: d in accrual.value && d !in todo && accrual.value[d] >= AmountOf(creditBalances, d)
            decreases |todo|
          {
            var d :| d in todo;
            if accrual.value[d] >= AmountOf(creditBalances, d) {
              shouldClose := true;
            }
            todo := todo - {d};
          }
        }
      } else {
        var i := 0;
        while i < |lease.items| && !shouldClose
          invariant 0 <= i <= |lease.items|
          invariant shouldClose <==> exists j :: 0 <= j < i && AmountOf(creditBalances, lease.items[j].lockedPrice.denom) == 0
        {
          if AmountOf(creditBalances, lease.items[i].lockedPrice.denom) == 0 {
            shouldClose := true;
          }
          i := i + 1;
        }
      }
      return Ok(if shouldClose then Some(now) else None);
    }

    // -------------------------------------------------------------- account updates

    /** The second result says whether the count was already zero, which is logged. */
    method DecrementActiveLeaseCount(ca: CreditAccount) returns (r: CreditAccount, inconsistent: bool)
      ensures r == ca.(activeLeaseCount := Dec(ca.activeLeaseCount))
      ensures inconsistent <==> ca.activeLeaseCount == 0
    {
      if ca.activeLeaseCount > 0 {
        return ca.(activeLeaseCount := ca.activeLeaseCount - 1), false;
      }
      return ca, true;
    }

    method DecrementPendingLeaseCount(ca: CreditAccount) returns (r: CreditAccount, inconsistent: bool)
      ensures r == ca.(pendingLeaseCount := Dec(ca.pendingLeaseCount))
      ensures inconsistent <==> ca.pendingLeaseCount == 0
    {
      if ca.pendingLeaseCount > 0 {
        return ca.(pendingLeaseCount := ca.pendingLeaseCount - 1), false;
      }
      return ca, true;
    }

    /** The second result says whether more is released than is reserved, which is logged. */
    method ReleaseLeaseReservation(ca: CreditAccount, lease: Lease, minLeaseDuration: nat)
      returns (r: CreditAccount, inconsistent: bool)
      ensures r == ca.(reservedAmounts := Monus(ca.reservedAmounts, Reservation(lease, minLeaseDuration)))
      ensures inconsistent <==> !Covers(ca.reservedAmounts, Reservation(lease, minLeaseDuration))
    {
      var duration := lease.minLeaseDurationAtCreation;
      if duration == 0 {
        duration := minLeaseDuration;
      }
      var amount := CalculateLeaseReservation(lease.items, duration);
      var underflows := CheckReservationRelease(ca.reservedAmounts, amount);
      var reserved := SubtractReservation(ca.reservedAmounts, amount);
      return ca.(reservedAmounts := reserved), underflows != map[];
    }

    /** The account without an active lease and its reservation, and whether anything was reported. */
    method DropActiveLease(ca: CreditAccount, lease: Lease, minLeaseDuration: nat) returns (r: CreditAccount, inconsistent: bool)
      ensures var c := DropActive(Reservation(lease, minLeaseDuration)); r == Changed(ca, c) && (inconsistent <==> Inconsistent(ca, c))
    {
      hide Reservation, Monus, Covers;
      var counted, zero := DecrementActiveLeaseCount(ca);
      var released, underflow := ReleaseLeaseReservation(counted, lease, minLeaseDuration);
      return released, zero || underflow;
    }

    method DropPendingLease(ca: CreditAccount, lease: Lease, minLeaseDuration: nat) returns (r: CreditAccount, inconsistent: bool)
      ensures var c := DropPending(Reservation(lease, minLeaseDuration)); r == Changed(ca, c) && (inconsistent <==> Inconsistent(ca, c))
    {
      hide Reservation, Monus, Covers;
      var counted, zero := DecrementPendingLeaseCount(ca);
      var released, underflow := ReleaseLeaseReservation(counted, lease, minLeaseDuration);
      return released, zero || underflow;
    }

    // -------------------------------------------------------------- closing and expiry

    /** Settle and close a lease whose credit is exhausted; works on a staged keeper.  The release
        uses the given minimum duration, which every caller reads from the parameters. */
    method AutoCloseLease(env: Env, lease: Lease, closeTime: Time, minLeaseDuration: nat) returns (r: Result<SettlementResult>, inconsistent: bool)
      modifies this
      ensures var spec := Finish(WithMinimum(old(State()), minLeaseDuration), env.(now := closeTime), lease, true, CREDIT_EXHAUSTED, false);
              if spec.Ok? then
                && r.Ok? && State() == spec.value.st.(params := old(params))
                && spec.value.receipts == [MakeReceipt(env.catalog, lease, closeTime, Settlement(bank, r.value.transferAmounts, r.value.accruedAmounts), true)]
              else r.Err? && r.error == spec.error
      ensures Consistent(old(State())) && minLeaseDuration == old(params.minLeaseDuration) && IsStored(old(leases), lease) && lease.state == Active ==>
                !inconsistent
    {
      hide Settle, Ledger.SetLease, Reservation, Consistent, Inconsistent, Finish, WithMinimum, Changed, MakeReceipt, Keyed, Monus, Available, IsStored;
      inconsistent := false;
      FinishWithMinimum(State(), env.(now := closeTime), lease, minLeaseDuration);
      NeverReported(State(), lease);
      var result :- PerformSettlementCore(env, lease, closeTime, true);
      var closed := lease.(state := Closed, closedAt := Some(closeTime), lastSettledAt := closeTime, closureReason := CREDIT_EXHAUSTED);
      SetLeaseKeepsRest(State(), closed);
      var _ :- SetLease(closed);
      if lease.tenant !in accounts {
        return Err(CreditAccountNotFound), inconsistent;
      }
      SameReservation(lease, closed, minLeaseDuration);
      var creditAccount;
      creditAccount, inconsistent := DropActiveLease(accounts[lease.tenant], closed, minLeaseDuration);
      SetCreditAccount(creditAccount);
      return Ok(result), inconsistent;
    }

    method ExpirePendingLease(now: Time, lease: Lease) returns (r: Result<()>, inconsistent: bool)
      modifies this
      ensures var spec := ExpireOne(old(State()), now, lease);
              if spec.Ok? then r.Ok? && State() == spec.value.st
              else r.Err? && r.error == spec.error && State() == old(State())
      ensures Consistent(old(State())) && IsStored(old(leases), lease) ==> !inconsistent
    {
      hide Ledger.SetLease, Reservation, Consistent, Inconsistent, Changed, IsStored;
      inconsistent := false;
      if lease.state != Pending {
        return Err(LeaseNotPending), inconsistent;
      }
      NeverReported(State(), lease);
      var staged := new Keeper.Stage(State());
      var expired := lease.(state := Expired, expiredAt := Some(now));
      SetLeaseKeepsRest(State(), expired);
      var _ :- staged.SetLease(expired);
      if lease.tenant !in staged.accounts {
        return Err(CreditAccountNotFound), inconsistent;
      }
      SameReservation(lease, expired, params.minLeaseDuration);
      var creditAccount;
      creditAccount, inconsistent := DropPendingLease(staged.accounts[lease.tenant], expired, params.minLeaseDuration);
      staged.SetCreditAccount(creditAccount);
      Write(staged);
      return Ok(()), inconsistent;
    }

    /** The first overdue leases in identifier order, as many as a block may expire. */
    method CollectOverdue(now: Time) returns (expired: seq<Uuid>)
      ensures expired == Take(Sorted(OverdueLeases(State(), now)), MAX_PENDING_LEASE_EXPIRATIONS_PER_BLOCK)
      ensures |expired| <= 100
      ensures forall u :: u in expired ==>
                u in leases && leases[u].state == Pending && now - leases[u].createdAt > params.pendingTimeout * 1_000_000_000
    {
      hide Increasing, Filtered, Sorted;
      var pending := set u | u in leases && leases[u].state == Pending;
      var keys := Sorted(pending);
      ghost var overdue := OverdueLeases(State(), now);
      FilteredNone(overdue);
      assert keys[..0] == [];
      FilteredIsSorted(pending, overdue);
      expired := [];
      for i := 0 to |keys|
        invariant expired == Filtered(keys[..i], overdue)
        invariant |expired| <= MAX_PENDING_LEASE_EXPIRATIONS_PER_BLOCK
        invariant forall u :: u in expired ==>
                    u in leases && leases[u].state == Pending && now - leases[u].createdAt > params.pendingTimeout * 1_000_000_000
      {
        if |expired| >= MAX_PENDING_LEASE_EXPIRATIONS_PER_BLOCK {
          FilteredPrefix(keys, overdue, i);
          return;
        }
        assert keys[i] in pending;
        FilteredNext(keys, overdue, i);
        if now > leases[keys[i]].createdAt + params.pendingTimeout * NANOS_PER_SECOND {
          expired := expired + [keys[i]];
        }
      }
      assert keys[..|keys|] == keys;
    }

    method EndBlocker(env: Env) returns (inconsistent: bool)
      modifies this
      ensures var spec := EndBlock(env, old(State())); spec.Ok? && State() == spec.value.st
      ensures Consistent(old(State())) ==> !inconsistent
    {
      inconsistent := false;
      hide Batch, ExpireOne, One, Sorted, OverdueLeases, Take, Increasing, Consistent, IsStored;
      var expired := CollectOverdue(env.now);
      BatchNone(OpExpire, env, State());
      assert expired[..0] == [];
      for i := 0 to |expired|
        invariant var b := Batch(OpExpire, env, old(State()), expired[..i]); b.Ok? && State() == b.value.st
        invariant Consistent(old(State())) ==> !inconsistent
      {
        if Consistent(old(State())) {
          ConsistentSoFar(OpExpire, env, old(State()), expired, i);
        }
        BatchNext(OpExpire, env, old(State()), expired, i);
        ExpiryIsLenient(env, State(), expired[i]);
        if expired[i] !in leases {
          continue;
        }
        if Consistent(State()) {
          StoredUnderKey(State(), expired[i]);
        }
        var _, reported := ExpirePendingLease(env.now, leases[expired[i]]);
        inconsistent := inconsistent || reported;
      }
      assert expired[..|expired|] == expired;
    }

    // -------------------------------------------------------------- custom domains

    function IsAuthorizedForTenant(env: Env, sender: Address, tenant: Address): (r: bool)
      reads this
      ensures r <==> sender == tenant || IsAdmin(env, State(), sender)
    {
      sender == tenant || sender == env.authority || sender in params.allowedList
    }

    method SetItemCustomDomain(env: Env, sender: Address, leaseUuid: Uuid, serviceName: string, rawDomain: string)
      returns (r: Result<()>)
      modifies this
      ensures Outcome(r, EditedStore(env, old(State()), sender, leaseUuid, serviceName, rawDomain), old(State()), State())
    {
      hide Ledger.SetLease, IsOnly, ValidFqdn, Reserved, Normalize;
      if leaseUuid !in leases {
        return Err(LeaseNotFound);
      }
      var lease := leases[leaseUuid];
      if !IsAuthorizedForTenant(env, sender, lease.tenant) {
        return Err(Unauthorized);
      }
      if lease.state != Pending && lease.state != Active {
        return Err(LeaseNotEditable);
      }
      var i :- FindLeaseItemByServiceName(lease, serviceName);
      var itemServiceName := lease.items[i].serviceName;
      assert itemServiceName == serviceName by { OnlyItemName(lease.items, serviceName, i); }
      var domain := Normalize(rawDomain);
      if domain == "" {
        if lease.items[i].customDomain == "" {
          return Ok(());
        }
        lease := lease.(items := lease.items[i := lease.items[i].(customDomain := "")]);
        r := SetLease(lease);
        return;
      }
      var _ :- IsValidFQDN(domain);
      var reserved := MatchesReservedSuffix(domain, params.reservedDomainSuffixes);
      if reserved {
        return Err(InvalidCustomDomain);
      }
      if domain in domainIndex {
        var target := domainIndex[domain];
        if target.leaseUuid == leaseUuid && target.serviceName == itemServiceName {
          return Ok(());
        }
        return Err(CustomDomainAlreadyClaimed);
      }
      lease := lease.(items := lease.items[i := lease.items[i].(customDomain := domain)]);
      r := SetLease(lease);
    }

    /** The lease and service that hold a domain; with an exact index no entry dangles. */
    method GetLeaseByCustomDomain(rawDomain: string) returns (r: Result<Option<(Lease, string)>>)
      ensures r.Err? ==> r.error == LeaseNotFound && Normalize(rawDomain) in domainIndex && domainIndex[Normalize(rawDomain)].leaseUuid !in leases
      ensures r.Ok? && r.value.None? <==> Normalize(rawDomain) !in domainIndex
      ensures r.Ok? && r.value.Some? ==> Resolves(domainIndex, leases, Normalize(rawDomain), r.value.value)
      ensures Exact(domainIndex, leases) ==>
                && r.Ok? && (r.value.Some? <==> exists u, s :: Holds(leases, Normalize(rawDomain), u, s))
                && (r.value.Some? ==> exists u :: u in leases && leases[u] == r.value.value.0 && Holds(leases, Normalize(rawDomain), u, r.value.value.1))
    {
      hide Normalize, Holds;
      var domain := Normalize(rawDomain);
      assert Exact(domainIndex, leases) ==> forall u, s :: Points(domainIndex, domain, u, s) <==> Holds(leases, domain, u, s);
      if domain !in domainIndex {
        return Ok(None);
      }
      var target := domainIndex[domain];
      assert Points(domainIndex, domain, target.leaseUuid, target.serviceName);
      if Exact(domainIndex, leases) {
        HolderExists(leases, domain, target.leaseUuid, target.serviceName);
      }
      if target.leaseUuid !in leases {
        return Err(LeaseNotFound);
      }
      return Ok(Some((leases[target.leaseUuid], target.serviceName)));
    }

    // -------------------------------------------------------------- genesis

    method InitGenesis(env: Env, g: GenesisState) returns (r: Result<()>)
      modifies this
      ensures StagedOutcome(r, Genesis.InitGenesis(env, old(State()), g), State())
      ensures r.Err? ==> State() == old(State()) || exists i ::
                0 <= i < |g.leases| && ImportLeases(env.catalog, old(State()).(params := g.params), g.leases[..i]) == Ok(State())
    {
      hide Ledger.SetLease, ImportLeases, ImportAccounts, Known;
      var timely := ValidateWithBlockTime(g.leases, env.now);
      if !timely {
        return Err(InvalidLease);
      }
      params := g.params;
      ghost var st0 := State();
      ImportNone(env.catalog, st0);
      assert g.leases[..0] == [] && g.creditAccounts[..0] == [];
      for i := 0 to |g.leases|
        invariant ImportLeases(env.catalog, st0, g.leases[..i]) == Ok(State())
      {
        ImportNext(env.catalog, st0, g.leases, i);
        var known := CheckReferences(env.catalog, g.leases[i]);
        if !known {
          ImportFails(env.catalog, st0, g.leases, i + 1);
          return Err(InvalidLease);
        }
        var set_ := SetLease(g.leases[i]);
        if set_.Err? {
          ImportFails(env.catalog, st0, g.leases, i + 1);
          return set_;
        }
      }
      assert g.leases[..|g.leases|] == g.leases;
      ghost var st1 := State();
      for i := 0 to |g.creditAccounts|
        invariant ImportAccounts(st1, g.creditAccounts[..i]) == State()
      {
        ImportNextAccount(st1, g.creditAccounts, i);
        SetCreditAccount(g.creditAccounts[i]);
      }
      assert g.creditAccounts[..|g.creditAccounts|] == g.creditAccounts;
      if g.leaseSequence > 0 {
        sequence := g.leaseSequence;
      }
      return Ok(());
    }

    method ExportGenesis() returns (g: GenesisState)
      requires Keyed(State())
      ensures IsExport(State(), g)
    {
      var ls := ListLeases(leases);
      var cas := ListAccounts(accounts);
      return GenesisState(params, ls, cas, sequence);
    }
  }
}
