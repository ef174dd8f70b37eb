/** Well-formed lease records, and what the custom-domain index means item by item. */
module Structure {
  import opened Coins
  import opened Types
  import opened Reservations
  import opened Accrual
  import opened DomainIndex
  import opened Names
  import opened Ledger
  import opened Invariants
  import opened Reachable
  import opened Lifetime
  import UuidV7

  // ---------------------------------------------------------------- well-formed records

  predicate ItemOk(it: LeaseItem) {
    UuidV7.IsValidUUIDv7(it.skuUuid) && it.quantity > 0 && it.lockedPrice.amount > 0 && ValidDenom(it.lockedPrice.denom) &&
    (it.customDomain != "" ==> ValidFqdn(it.customDomain))
  }

  /** Either no item is named and the SKUs differ, or all are named and the names differ. */
  predicate NamesOk(items: seq<LeaseItem>) {
    || ((forall i :: 0 <= i < |items| ==> items[i].serviceName == "") &&
        (forall i, j :: 0 <= i < j < |items| ==> items[i].skuUuid != items[j].skuUuid))
    || ((forall i :: 0 <= i < |items| ==> ValidLabel(items[i].serviceName)) &&
        (forall i, j :: 0 <= i < j < |items| ==> items[i].serviceName != items[j].serviceName))
  }

  /** An item with a domain is the only one with its service name. */
  predicate Addressable(items: seq<LeaseItem>) {
    forall i :: 0 <= i < |items| && items[i].customDomain != "" ==> IsOnly(items, items[i].serviceName, i)
  }

  predicate ItemsOk(items: seq<LeaseItem>) {
    && items != []
    && (forall i :: 0 <= i < |items| ==> ItemOk(items[i]))
    && NamesOk(items) && Addressable(items)
  }

  predicate LeaseOk(l: Lease) {
    && UuidV7.IsValidUUIDv7(l.uuid) && UuidV7.IsValidUUIDv7(l.providerUuid)
    && ItemsOk(l.items) && |l.metaHash| <= MAX_META_HASH_LENGTH
  }

  predicate AllOk(leases: map<Uuid, Lease>) {
    forall u :: u in leases ==> LeaseOk(leases[u])
  }

  /** The SKU module hands out well-formed provider identifiers and prices. */
  predicate CatalogOk(c: Catalog) {
    forall k :: k in c.skus ==> UuidV7.IsValidUUIDv7(c.skus[k].providerUuid) && ValidDenom(c.skus[k].basePrice.denom)
  }

  // ---------------------------------------------------------------- creation makes well-formed leases

  /** The locked price per second, times the seconds of the SKU's unit, is its base price. */
  predicate PricedAs(sku: Sku, price: Coin) {
    && price.denom == sku.basePrice.denom && price.amount > 0
    && match sku.unit
       case PerHour => price.amount * 3600 == sku.basePrice.amount
       case PerDay => price.amount * 86400 == sku.basePrice.amount
       case UnitUnspecified => false
  }

  /** The items as ordered, at the catalog's prices; all SKUs are active and of the provider. */
  predicate Quoted(catalog: Catalog, provider: string, inputs: seq<LeaseItemInput>, items: seq<LeaseItem>) {
    && |items| == |inputs|
    && forall i :: 0 <= i < |items| ==>
         items[i].skuUuid == inputs[i].skuUuid && items[i].quantity == inputs[i].quantity &&
         items[i].serviceName == inputs[i].serviceName && items[i].customDomain == "" &&
         items[i].skuUuid in catalog.skus && catalog.skus[items[i].skuUuid].active &&
         catalog.skus[items[i].skuUuid].providerUuid == provider && PricedAs(catalog.skus[items[i].skuUuid], items[i].lockedPrice)
  }

  lemma PricePerSecondIsPriced(sku: Sku)
    ensures PricePerSecond(sku).Some? ==> PricedAs(sku, PricePerSecond(sku).value)
  {
  }

  lemma {:induction false} QuoteMatches(catalog: Catalog, inputs: seq<LeaseItemInput>)
    requires PriceItems(catalog, inputs).Ok?
    ensures var q := PriceItems(catalog, inputs).value; Quoted(catalog, q.provider, inputs, q.items)
    decreases |inputs|
  {
    if inputs != [] {
      var n := |inputs| - 1;
      QuoteMatches(catalog, inputs[..n]);
      PricePerSecondIsPriced(catalog.skus[inputs[n].skuUuid]);
      hide PricedAs, PricePerSecond;
    }
  }

  lemma {:induction false} CheckedItems(items: seq<LeaseItemInput>, i: nat)
    requires CheckEachItem(items).Ok? && i < |items|
    ensures UuidV7.IsValidUUIDv7(items[i].skuUuid) && items[i].quantity > 0
    decreases |items|
  {
    hide UuidV7.IsValidUUIDv7;
    var n := |items| - 1;
    if i < n {
      CheckedItems(items[..n], i);
    }
  }

  lemma NewItemsAreOk(catalog: Catalog, inputs: seq<LeaseItemInput>)
    requires CheckLeaseItems(inputs).Ok? && PriceItems(catalog, inputs).Ok? && CatalogOk(catalog)
    ensures ItemsOk(PriceItems(catalog, inputs).value.items)
  {
    hide UuidV7.IsValidUUIDv7, ValidLabel, ValidFqdn, PriceItems, IsOnly, CheckEachItem, ValidDenom;
    QuoteMatches(catalog, inputs);
    var items := PriceItems(catalog, inputs).value.items;
    forall i | 0 <= i < |items| ensures ItemOk(items[i]) {
      CheckedItems(inputs, i);
    }
  }

  lemma NewLeaseIsOk(env: Env, st: Store, tenant: Address, inputs: seq<LeaseItemInput>, metaHash: seq<int>)
    requires CreateLease(env, st, tenant, inputs, metaHash).Ok? && PriceItems(env.catalog, inputs).Ok? && CatalogOk(env.catalog)
    ensures LeaseOk(NewLease(env, st, tenant, PriceItems(env.catalog, inputs).value, metaHash))
  {
    CreationChecks(env, st, tenant, inputs, metaHash);
    hide CreateLease, PriceItems, ItemsOk, CheckLeaseItems, UuidV7.IsValidUUIDv7, UuidV7.Format, UuidV7.Layout, UuidV7.Node;
    NewItemsAreOk(env.catalog, inputs);
    QuoteMatches(env.catalog, inputs);
    UuidV7.GeneratedIsValid(UuidV7.UnixMilli(env.now), st.sequence, UuidV7.Node(env.entropy, st.sequence));
  }

  lemma CreationChecks(env: Env, st: Store, tenant: Address, inputs: seq<LeaseItemInput>, metaHash: seq<int>)
    requires CreateLease(env, st, tenant, inputs, metaHash).Ok?
    ensures CheckLeaseItems(inputs).Ok? && inputs != [] && |metaHash| <= MAX_META_HASH_LENGTH
  {
    hide CheckEachItem, Place, Rates, Scale, Free, UuidV7.Generate, PriceItems, GoodNames, DistinctSkus;
  }

  // ---------------------------------------------------------------- events keep them

  lemma EvolvedIsOk(leases: map<Uuid, Lease>, us: seq<Uuid>, leases': map<Uuid, Lease>)
    requires AllOk(leases) && OnlyEvolved(leases, us, leases')
    ensures AllOk(leases')
  {
    hide ItemsOk, UuidV7.IsValidUUIDv7;
    forall u | u in leases' ensures LeaseOk(leases'[u]) {
      assert u in leases && EvolvesStar(leases[u], leases'[u]);
    }
  }

  lemma DomainIsValid(env: Env, st: Store, sender: Address, u: Uuid, service: string, raw: string)
    requires SetItemCustomDomain(env, st, sender, u, service, raw).Ok?
    requires SetItemCustomDomain(env, st, sender, u, service, raw).value.st != st
    ensures Normalize(raw) == "" || (ValidFqdn(Normalize(raw)) && !Reserved(Normalize(raw), st.params.reservedDomainSuffixes))
  {
    hide SetLease, ValidFqdn, ValidLabel, UuidV7.IsValidUUIDv7, Normalize, Reserved, FindItem, WithDomain;
  }

  lemma RelabelledIsOk(leases: map<Uuid, Lease>, u: Uuid, service: string, domain: string, leases': map<Uuid, Lease>)
    requires AllOk(leases) && Relabelled(leases, u, service, domain, leases') && (domain == "" || ValidFqdn(domain))
    ensures AllOk(leases')
  {
    hide UuidV7.IsValidUUIDv7, ValidFqdn, ValidLabel, IsOnly, AllOk;
    var l := leases[u];
    assert LeaseOk(l) by { OkAt(leases, u); }
    var i :| 0 <= i < |l.items| && IsOnly(l.items, service, i) && leases' == leases[u := WithDomain(l, i, domain)];
    RelabelledItemsOk(l.items, service, i, domain);
    OneMoreOk(leases, u, WithDomain(l, i, domain));
  }

  lemma OkAt(leases: map<Uuid, Lease>, u: Uuid)
    requires AllOk(leases) && u in leases
    ensures LeaseOk(leases[u])
  {
    hide LeaseOk;
  }

  lemma OneMoreOk(leases: map<Uuid, Lease>, u: Uuid, l: Lease)
    requires AllOk(leases) && LeaseOk(l)
    ensures AllOk(leases[u := l])
  {
    hide LeaseOk;
  }

  lemma RelabelledItemsOk(items: seq<LeaseItem>, service: string, i: nat, domain: string)
    requires ItemsOk(items) && IsOnly(items, service, i) && (domain == "" || ValidFqdn(domain))
    ensures ItemsOk(items[i := items[i].(customDomain := domain)])
  {
    hide UuidV7.IsValidUUIDv7, ValidFqdn, ValidLabel;
    var items' := items[i := items[i].(customDomain := domain)];
    assert forall j :: 0 <= j < |items| ==> items'[j].serviceName == items[j].serviceName && items'[j].skuUuid == items[j].skuUuid;
    forall j | 0 <= j < |items'| ensures ItemOk(items'[j]) {
      assert ItemOk(items[j]);
    }
    forall j | 0 <= j < |items'| && items'[j].customDomain != "" ensures IsOnly(items', items'[j].serviceName, j) {
      assert IsOnly(items, items[j].serviceName, j);
    }
  }

  lemma CreationIsOk(env: Env, st: Store, ev: Event)
    requires Good(st) && AllOk(st.leases) && Creates(ev) && Handle(env, st, ev).Ok? && NextUuid(env, st) !in st.leases && CatalogOk(env.catalog)
    ensures AllOk(Handle(env, st, ev).value.st.leases)
  {
    hide Good, Handle, UuidV7.Generate, PriceItems, AllOk, CreateLease, LeaseOk, CatalogOk;
    var l := CreationKeeps(env, st, ev);
    CreationIsCreateLease(env, st, ev);
    NewLeaseIsOk(env, st, ev.tenant, ev.inputs, ev.metaHash);
    OneMoreOk(st.leases, l.uuid, l);
  }

  lemma DeliverIsOk(env: Env, st: Store, ev: Event)
    requires Good(st) && AllOk(st.leases) && CatalogOk(env.catalog)
    requires Creates(ev) && Handle(env, st, ev).Ok? ==> NextUuid(env, st) !in st.leases
    ensures AllOk(Deliver(env, st, ev).st.leases)
  {
    hide Indexed, ReservedExactly, NoLegacy, FundCredit, SetItemCustomDomain, UuidV7.Generate, CreateLease, CreateLeaseForTenant, EndBlock, WithdrawAll, WithdrawLeases, CloseLease, CancelLease, RejectLease, AcknowledgeLease, Batch, BatchTargets, OnlyEvolved, Relabelled, UpdateParams, AllOk, CatalogOk, ValidFqdn, Normalize;
    if Handle(env, st, ev).Ok? {
      var st' := Handle(env, st, ev).value.st;
      if IsBatch(ev) {
        HandleIsBatch(env, st, ev);
        BatchIsKept(BatchOp(ev), env, st, BatchTargets(env, st, ev));
        EvolvedIsOk(st.leases, BatchTargets(env, st, ev), st'.leases);
      } else if Creates(ev) {
        CreationIsOk(env, st, ev);
      } else if ev.Fund? {
        FundKeeps(st, ev.sender, ev.tenant, ev.amount);
      } else if ev.SetDomain? {
        SetDomainKeeps(env, st, ev.sender, ev.uuid, ev.service, ev.domain);
        if st' != st {
          DomainIsValid(env, st, ev.sender, ev.uuid, ev.service, ev.domain);
          RelabelledIsOk(st.leases, ev.uuid, ev.service, Normalize(ev.domain), st'.leases);
        }
      } else if ev.SetParams? {
        ParamsOnly(env, st, ev.sender, ev.params);
      }
    }
  }

  /** Records stay well-formed over every run. */
  lemma {:induction false} RunIsOk(st: Store, steps: seq<Step>)
    requires Good(st) && FreshRun(st, steps) && AllOk(st.leases)
    requires forall i :: 0 <= i < |steps| ==> CatalogOk(steps[i].env.catalog)
    ensures AllOk(Run(st, steps).st.leases)
    decreases |steps|
  {
    hide Good, UuidV7.Generate, Deliver, Handle, AllOk, CatalogOk;
    if steps != [] {
      var n := |steps| - 1;
      RunIsOk(st, steps[..n]);
      RunKeepsGood(st, steps[..n]);
      DeliverIsOk(steps[n].env, Run(st, steps[..n]).st, steps[n].event);
    }
  }

  // ---------------------------------------------------------------- the index, item by item

  predicate ItemHas(items: seq<LeaseItem>, i: nat, s: string, d: string) {
    i < |items| && items[i].serviceName == s && items[i].customDomain == d
  }

  lemma {:induction false} ByServiceSound(items: seq<LeaseItem>, s: string)
    requires s in ByService(items)
    ensures ByService(items)[s] != "" && exists i: nat :: ItemHas(items, i, s, ByService(items)[s])
    decreases |items|
  {
    var n := |items| - 1;
    if items[n].customDomain != "" && items[n].serviceName == s {
      assert ItemHas(items, n, s, ByService(items)[s]);
    } else {
      ByServiceSound(items[..n], s);
      var i: nat :| ItemHas(items[..n], i, s, ByService(items[..n])[s]);
      assert ItemHas(items, i, s, ByService(items)[s]);
    }
  }

  lemma {:induction false} ByServiceComplete(items: seq<LeaseItem>, i: nat)
    requires i < |items| && items[i].customDomain != ""
    requires forall j :: 0 <= j < |items| && items[j].serviceName == items[i].serviceName ==> j == i
    ensures items[i].serviceName in ByService(items) && ByService(items)[items[i].serviceName] == items[i].customDomain
    decreases |items|
  {
    var n := |items| - 1;
    if i < n {
      ByServiceComplete(items[..n], i);
      assert items[n].serviceName != items[i].serviceName;
    }
  }

  /** On well-formed items the claims are the items' domains. */
  lemma ClaimsAreItems(items: seq<LeaseItem>, s: string, d: string)
    requires Addressable(items)
    ensures s in ByService(items) && ByService(items)[s] == d <==> d != "" && exists i: nat :: ItemHas(items, i, s, d)
  {
    if s in ByService(items) {
      ByServiceSound(items, s);
    }
    if d != "" && exists i: nat :: ItemHas(items, i, s, d) {
      var i: nat :| ItemHas(items, i, s, d);
      assert IsOnly(items, items[i].serviceName, i);
      ByServiceComplete(items, i);
    }
  }

  /** In every reachable store a domain points at a lease and service exactly when that lease is
      pending or active and its item of that name carries the domain. */
  lemma IndexIsInverseOfItems(st: Store, d: string, u: Uuid, s: string)
    requires Exact(st.domainIndex, st.leases) && AllOk(st.leases)
    ensures d in st.domainIndex && st.domainIndex[d] == CustomDomainTarget(u, s) <==>
            u in st.leases && Live(st.leases[u]) && d != "" && exists i: nat :: ItemHas(st.leases[u].items, i, s, d)
  {
    assert Points(st.domainIndex, d, u, s) <==> Holds(st.leases, d, u, s);
    if u in st.leases {
      OkAt(st.leases, u);
      hide AllOk, ByService, UuidV7.IsValidUUIDv7, NamesOk, ItemOk, Exact;
      ClaimsAreItems(st.leases[u].items, s, d);
    }
  }

  /** No two live items share a domain. */
  lemma DomainsAreUnique(st: Store, u: Uuid, i: nat, v: Uuid, j: nat)
    requires Exact(st.domainIndex, st.leases) && AllOk(st.leases)
    requires u in st.leases && Live(st.leases[u]) && i < |st.leases[u].items|
    requires v in st.leases && Live(st.leases[v]) && j < |st.leases[v].items|
    requires st.leases[u].items[i].customDomain == st.leases[v].items[j].customDomain != ""
    ensures u == v && i == j
  {
    hide AllOk, Exact, LeaseOk, IsOnly;
    var a, b := st.leases[u].items[i], st.leases[v].items[j];
    assert ItemHas(st.leases[u].items, i, a.serviceName, a.customDomain);
    assert ItemHas(st.leases[v].items, j, b.serviceName, b.customDomain);
    IndexIsInverseOfItems(st, a.customDomain, u, a.serviceName);
    IndexIsInverseOfItems(st, b.customDomain, v, b.serviceName);
    OnlyItem(st.leases, u, i, j);
  }

  lemma OnlyItem(leases: map<Uuid, Lease>, u: Uuid, i: nat, j: nat)
    requires AllOk(leases) && u in leases && i < |leases[u].items| && leases[u].items[i].customDomain != ""
    ensures j < |leases[u].items| && leases[u].items[j].serviceName == leases[u].items[i].serviceName ==> i == j
  {
    hide ItemOk, NamesOk, UuidV7.IsValidUUIDv7;
    assert IsOnly(leases[u].items, leases[u].items[i].serviceName, i);
  }
}
