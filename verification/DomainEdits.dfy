/** Setting and clearing the custom domain of an item: exactly when it is accepted, and what is
    stored and indexed afterwards. */
module DomainEdits {
  import opened Types
  import opened DomainIndex
  import opened Names
  import opened Ledger
  import opened Invariants
  import opened Reachable
  import opened Structure
  import UuidV7

  // ---------------------------------------------------------------- when

  /** Exactly one item has this service name. */
  predicate NamedOnce(items: seq<LeaseItem>, service: string) {
    exists i :: 0 <= i < |items| && IsOnly(items, service, i)
  }

  lemma FindIff(l: Lease, service: string)
    requires NamesOk(l.items)
    ensures FindItem(l, service).Ok? <==> NamedOnce(l.items, service)
  {
    if |l.items| > 1 && l.items[0].serviceName == "" {
      forall i: nat ensures !IsOnly(l.items, service, i) {
        var j := if i == 0 then 1 else 0;
        assert l.items[j].serviceName == "";
      }
    }
  }

  /** No live item but this one carries the domain. */
  predicate FreeFor(leases: map<Uuid, Lease>, d: string, u: Uuid, service: string) {
    forall v, j :: v in leases && Live(leases[v]) && 0 <= j < |leases[v].items| && leases[v].items[j].customDomain == d ==>
      v == u && leases[v].items[j].serviceName == service
  }

  /** The tenant, the authority or an account of the allowed list edits a live lease; a domain must
      be a valid name outside the reserved zones that no other live item carries. */
  predicate MayEdit(env: Env, st: Store, sender: Address, u: Uuid, service: string, d: string) {
    && u in st.leases && Live(st.leases[u])
    && (sender == st.leases[u].tenant || sender == env.authority || sender in st.params.allowedList)
    && NamedOnce(st.leases[u].items, service)
    && (d != "" ==> ValidFqdn(d) && !Reserved(d, st.params.reservedDomainSuffixes) && FreeFor(st.leases, d, u, service))
  }

  // ---------------------------------------------------------------- the write is accepted

  /** A domain of a live lease, as an item. */
  lemma HeldIsItem(st: Store, d: string, v: Uuid, s: string) returns (j: nat)
    requires AllOk(st.leases) && Holds(st.leases, d, v, s)
    ensures Live(st.leases[v]) && d != "" && ItemHas(st.leases[v].items, j, s, d)
  {
    OkAt(st.leases, v);
    hide AllOk, ByService, UuidV7.IsValidUUIDv7, NamesOk, ItemOk, IsOnly;
    ClaimsAreItems(st.leases[v].items, s, d);
    j :| ItemHas(st.leases[v].items, j, s, d);
  }

  /** A claim of the relabelled lease is its new domain, or one it had before. */
  lemma ClaimAfter(l: Lease, i: nat, service: string, d: string, s: string) returns (k: nat)
    requires ItemsOk(l.items) && IsOnly(l.items, service, i) && (d == "" || ValidFqdn(d)) && s in Claims(WithDomain(l, i, d))
    ensures var c := Claims(WithDomain(l, i, d))[s];
            c != "" && k < |l.items| && l.items[k].serviceName == s && (if k == i then c == d else l.items[k].customDomain == c)
  {
    hide ByService, NamesOk, ItemOk, UuidV7.IsValidUUIDv7, ValidFqdn;
    RelabelledItemsOk(l.items, service, i, d);
    var l' := WithDomain(l, i, d);
    ClaimsAreItems(l'.items, s, Claims(l')[s]);
    k :| ItemHas(l'.items, k, s, Claims(l')[s]);
  }

  lemma RelabelIsUnclaimed(st: Store, u: Uuid, i: nat, service: string, d: string)
    requires Exact(st.domainIndex, st.leases) && AllOk(st.leases) && u in st.leases && Live(st.leases[u]) && st.leases[u].uuid == u
    requires IsOnly(st.leases[u].items, service, i) && (d != "" ==> ValidFqdn(d) && FreeFor(st.leases, d, u, service))
    ensures Unclaimed(st.leases, WithDomain(st.leases[u], i, d))
  {
    OkAt(st.leases, u);
    var l' := WithDomain(st.leases[u], i, d);
    assert l'.uuid == u;
    hide AllOk, ByService, ItemsOk, Exact, UuidV7.IsValidUUIDv7, ValidFqdn, Holds, Claims, WithDomain, IsOnly;
    forall c, v, s | Holds(st.leases, c, v, s) && v != u ensures c !in Claims(l').Values {
      var j := HeldIsItem(st, c, v, s);
      HeldIsListed(st.leases, c, v, s);
      if c in Claims(l').Values {
        var s' :| s' in Claims(l') && Claims(l')[s'] == c;
        var k := ClaimAfter(st.leases[u], i, service, d, s');
        if k != i {
          DomainsAreUnique(st, u, k, v, j);
        }
      }
    }
  }

  lemma HeldIsListed(leases: map<Uuid, Lease>, d: string, u: Uuid, s: string)
    requires Holds(leases, d, u, s)
    ensures u in leases
  {
  }

  lemma RelabelIsInjective(st: Store, u: Uuid, i: nat, service: string, d: string)
    requires Exact(st.domainIndex, st.leases) && AllOk(st.leases) && u in st.leases && Live(st.leases[u])
    requires IsOnly(st.leases[u].items, service, i) && (d != "" ==> ValidFqdn(d) && FreeFor(st.leases, d, u, service))
    ensures Injective(Claims(WithDomain(st.leases[u], i, d)))
  {
    OkAt(st.leases, u);
    var l := st.leases[u];
    var m := Claims(WithDomain(l, i, d));
    hide AllOk, ByService, ItemsOk, Exact, UuidV7.IsValidUUIDv7, ValidFqdn, Claims, WithDomain;
    forall s, s' | s in m && s' in m && m[s] == m[s'] ensures s == s' {
      var k := ClaimAfter(l, i, service, d, s);
      var k' := ClaimAfter(l, i, service, d, s');
      if k != i && k' != i {
        DomainsAreUnique(st, u, k, u, k');
      }
    }
  }

  lemma RelabelSucceeds(st: Store, u: Uuid, i: nat, service: string, d: string)
    requires Indexed(st) && AllOk(st.leases) && u in st.leases && Live(st.leases[u])
    requires IsOnly(st.leases[u].items, service, i) && (d != "" ==> ValidFqdn(d) && FreeFor(st.leases, d, u, service))
    ensures SetLease(st, WithDomain(st.leases[u], i, d)).Ok?
  {
    FiledUnderKey(st, u);
    IndexedIsExact(st);
    hide Indexed, AllOk, Exact, ValidFqdn, FreeFor, Unclaimed, Injective, IsOnly, Reconcile;
    RelabelIsUnclaimed(st, u, i, service, d);
    RelabelIsInjective(st, u, i, service, d);
    ReconcileExact(st.domainIndex, st.leases, WithDomain(st.leases[u], i, d));
  }

  lemma IndexedIsExact(st: Store)
    requires Indexed(st)
    ensures Exact(st.domainIndex, st.leases)
  {
    hide Exact, SkuExact, Sheltered, Counted, Keyed;
  }

  // ---------------------------------------------------------------- what is stored

  /** The index leads from the item's domain to the item; without a domain nothing leads there. */
  ghost predicate Leads(idx: Index, u: Uuid, service: string, d: string) {
    && (d != "" ==> Points(idx, d, u, service))
    && (d == "" ==> forall e :: !Points(idx, e, u, service))
  }

  ghost predicate Stored(st: Store, u: Uuid, i: nat, service: string, d: string, st': Store) {
    && u in st.leases && i < |st.leases[u].items| && IsOnly(st.leases[u].items, service, i)
    && st'.leases == st.leases[u := st.leases[u].(items := st.leases[u].items[i := st.leases[u].items[i].(customDomain := d)])]
    && st' == st.(leases := st'.leases, domainIndex := st'.domainIndex)
  }

  /** The item carries the domain, nothing else changed, and the index leads there. */
  ghost predicate Edited(st: Store, u: Uuid, service: string, d: string, st': Store) {
    (exists i: nat :: Stored(st, u, i, service, d, st')) && Leads(st'.domainIndex, u, service, d)
  }

  lemma SameItem(l: Lease, i: nat, d: string)
    requires i < |l.items| && l.items[i].customDomain == d
    ensures l.(items := l.items[i := l.items[i].(customDomain := d)]) == l
  {
    assert l.items[i := l.items[i].(customDomain := d)] == l.items;
  }

  lemma IndexAfter(st: Store, u: Uuid, service: string, i: nat)
    requires Exact(st.domainIndex, st.leases) && AllOk(st.leases) && u in st.leases && Live(st.leases[u])
    requires IsOnly(st.leases[u].items, service, i)
    ensures Leads(st.domainIndex, u, service, st.leases[u].items[i].customDomain)
  {
    hide Exact, AllOk;
    var d := st.leases[u].items[i].customDomain;
    assert ItemHas(st.leases[u].items, i, service, d);
    IndexIsInverseOfItems(st, d, u, service);
    if d == "" {
      forall e ensures !Points(st.domainIndex, e, u, service) {
        IndexIsInverseOfItems(st, e, u, service);
      }
    }
  }

  lemma UnchangedIsStored(st: Store, u: Uuid, i: nat, service: string)
    requires u in st.leases && IsOnly(st.leases[u].items, service, i)
    ensures Stored(st, u, i, service, st.leases[u].items[i].customDomain, st)
  {
    SameItem(st.leases[u], i, st.leases[u].items[i].customDomain);
    hide IsOnly;
    assert st.leases[u := st.leases[u]] == st.leases;
  }

  lemma UnchangedIsEdited(st: Store, u: Uuid, i: nat, service: string)
    requires Indexed(st) && AllOk(st.leases) && u in st.leases && Live(st.leases[u]) && IsOnly(st.leases[u].items, service, i)
    ensures Edited(st, u, service, st.leases[u].items[i].customDomain, st)
  {
    hide Indexed, Exact, AllOk, Leads, Stored;
    IndexedIsExact(st);
    IndexAfter(st, u, service, i);
    UnchangedIsStored(st, u, i, service);
  }

  lemma RelabelKeepsSkuIndex(st: Store, l: Lease, l': Lease)
    requires SkuExact(st.skuIndex, st.leases) && l.uuid in st.leases && st.leases[l.uuid] == l && Rewrite(l, l')
    ensures st.skuIndex + SkuEntries(l') == st.skuIndex
  {
    hide Uses, Reservations.Rates, SkuEntries;
    forall e | e in SkuEntries(l') ensures e in st.skuIndex {
      SkuEntriesAreUses(l', e.0, e.1);
      assert e == (e.0, e.1);
    }
  }

  lemma WriteStores(st: Store, u: Uuid, i: nat, service: string, d: string)
    requires Indexed(st) && u in st.leases && IsOnly(st.leases[u].items, service, i) && SetLease(st, WithDomain(st.leases[u], i, d)).Ok?
    ensures Stored(st, u, i, service, d, SetLease(st, WithDomain(st.leases[u], i, d)).value)
  {
    FiledUnderKey(st, u);
    assert SkuExact(st.skuIndex, st.leases) by {
      hide Exact, SkuExact, Sheltered, Counted, Keyed;
    }
    hide Indexed, SkuExact, IsOnly, Reconcile, SkuEntries, Rewrite;
    WithDomainIsRewrite(st.leases[u], i, d);
    RelabelKeepsSkuIndex(st, st.leases[u], WithDomain(st.leases[u], i, d));
  }

  lemma WriteLeads(st: Store, u: Uuid, i: nat, service: string, d: string, st': Store)
    requires Indexed(st) && AllOk(st.leases) && u in st.leases && Live(st.leases[u])
    requires IsOnly(st.leases[u].items, service, i) && (d == "" || ValidFqdn(d))
    requires SetLease(st, WithDomain(st.leases[u], i, d)) == Ok(st') && Stored(st, u, i, service, d, st')
    ensures Leads(st'.domainIndex, u, service, d)
  {
    var l' := WithDomain(st.leases[u], i, d);
    assert l'.items == st.leases[u].items[i := st.leases[u].items[i].(customDomain := d)] && Live(l') && st'.leases[u] == l';
    FiledUnderKey(st, u);
    IndexedIsExact(st);
    RelabelledOk(st.leases[u], service, i, d) by { OkAt(st.leases, u); }
    SameNames(st.leases[u].items, i, d, service);
    hide Indexed, Exact, AllOk, LeaseOk, ValidFqdn, Leads, IsOnly, SetLease;
    WriteIsExact(st, l');
    OneMoreOk(st.leases, u, l');
    IndexAfter(st', u, service, i);
  }

  lemma RelabelledOk(l: Lease, service: string, i: nat, d: string)
    requires LeaseOk(l) && IsOnly(l.items, service, i) && (d == "" || ValidFqdn(d))
    ensures LeaseOk(WithDomain(l, i, d))
  {
    hide ItemsOk, ValidFqdn, UuidV7.IsValidUUIDv7, IsOnly;
    RelabelledItemsOk(l.items, service, i, d);
  }

  lemma WriteIsExact(st: Store, l: Lease)
    requires Exact(st.domainIndex, st.leases) && SetLease(st, l).Ok?
    ensures Exact(SetLease(st, l).value.domainIndex, st.leases[l.uuid := l])
  {
    hide Exact, Reconcile, SkuEntries;
    ReconcileExact(st.domainIndex, st.leases, l);
  }

  lemma WrittenIsEdited(st: Store, u: Uuid, i: nat, service: string, d: string)
    requires Indexed(st) && AllOk(st.leases) && u in st.leases && Live(st.leases[u])
    requires IsOnly(st.leases[u].items, service, i) && (d == "" || ValidFqdn(d))
    requires SetLease(st, WithDomain(st.leases[u], i, d)).Ok?
    ensures Edited(st, u, service, d, SetLease(st, WithDomain(st.leases[u], i, d)).value)
  {
    hide Indexed, AllOk, ValidFqdn, Leads, Stored, SetLease;
    WriteStores(st, u, i, service, d);
    WriteLeads(st, u, i, service, d, SetLease(st, WithDomain(st.leases[u], i, d)).value);
  }

  lemma SameNames(items: seq<LeaseItem>, i: nat, d: string, service: string)
    requires IsOnly(items, service, i)
    ensures IsOnly(items[i := items[i].(customDomain := d)], service, i)
  {
  }

  // ---------------------------------------------------------------- the edit

  lemma CarriedIsIndexed(st: Store, d: string, v: Uuid, j: nat)
    requires Exact(st.domainIndex, st.leases) && AllOk(st.leases) && d != ""
    requires v in st.leases && Live(st.leases[v]) && j < |st.leases[v].items| && st.leases[v].items[j].customDomain == d
    ensures Points(st.domainIndex, d, v, st.leases[v].items[j].serviceName)
  {
    hide Exact, AllOk;
    assert ItemHas(st.leases[v].items, j, st.leases[v].items[j].serviceName, d);
    IndexIsInverseOfItems(st, d, v, st.leases[v].items[j].serviceName);
  }

  lemma IndexedIsCarried(st: Store, d: string, v: Uuid, s: string) returns (j: nat)
    requires Exact(st.domainIndex, st.leases) && AllOk(st.leases) && Points(st.domainIndex, d, v, s)
    ensures v in st.leases && Live(st.leases[v]) && d != "" && ItemHas(st.leases[v].items, j, s, d)
  {
    hide Exact, AllOk;
    IndexIsInverseOfItems(st, d, v, s);
    j :| ItemHas(st.leases[v].items, j, s, d);
  }

  /** What the index says about a domain, item by item. */
  lemma IndexDecides(st: Store, u: Uuid, service: string, d: string)
    requires Exact(st.domainIndex, st.leases) && AllOk(st.leases) && d != ""
    ensures FreeFor(st.leases, d, u, service) <==> d !in st.domainIndex || st.domainIndex[d] == CustomDomainTarget(u, service)
  {
    hide Exact, AllOk;
    if d in st.domainIndex {
      var t := st.domainIndex[d];
      var j := IndexedIsCarried(st, d, t.leaseUuid, t.serviceName);
    }
    forall v, j | v in st.leases && Live(st.leases[v]) && 0 <= j < |st.leases[v].items| && st.leases[v].items[j].customDomain == d
      ensures Points(st.domainIndex, d, v, st.leases[v].items[j].serviceName)
    {
      CarriedIsIndexed(st, d, v, j);
    }
  }

  /** The edit of a domain in any spelling: accepted exactly when permitted, and then stored and
      indexed in its normal form. */
  lemma EditIff(env: Env, st: Store, sender: Address, u: Uuid, service: string, raw: string)
    requires Indexed(st) && AllOk(st.leases)
    ensures EditedStore(env, st, sender, u, service, raw).Ok? <==> MayEdit(env, st, sender, u, service, Normalize(raw))
    ensures EditedStore(env, st, sender, u, service, raw).Ok? ==> Edited(st, u, service, Normalize(raw), EditedStore(env, st, sender, u, service, raw).value)
  {
    hide Indexed, AllOk, SetLease, ValidFqdn, Reserved, Normalize, FindItem, FreeFor, NamesOk, NamedOnce, Edited, IsOnly;
    if u in st.leases && Live(st.leases[u]) {
      NamesAreOk(st.leases, u);
      FindIff(st.leases[u], service);
      if FindItem(st.leases[u], service).Ok? && (Normalize(raw) == "" || ValidFqdn(Normalize(raw))) {
        EditCases(st, u, FindItem(st.leases[u], service).value, service, Normalize(raw));
      }
    }
  }

  lemma NamesAreOk(leases: map<Uuid, Lease>, u: Uuid)
    requires AllOk(leases) && u in leases
    ensures NamesOk(leases[u].items)
  {
    OkAt(leases, u);
    hide AllOk, NamesOk, ItemOk, Addressable, UuidV7.IsValidUUIDv7;
  }

  lemma EditCases(st: Store, u: Uuid, i: nat, service: string, d: string)
    requires Indexed(st) && AllOk(st.leases) && u in st.leases && Live(st.leases[u])
    requires IsOnly(st.leases[u].items, service, i) && (d == "" || ValidFqdn(d))
    ensures d != "" ==> (FreeFor(st.leases, d, u, service) <==> d !in st.domainIndex || st.domainIndex[d] == CustomDomainTarget(u, service))
    ensures st.leases[u].items[i].customDomain == d || Points(st.domainIndex, d, u, service) ==> Edited(st, u, service, d, st)
    ensures d == "" || FreeFor(st.leases, d, u, service) ==>
              SetLease(st, WithDomain(st.leases[u], i, d)).Ok? && Edited(st, u, service, d, SetLease(st, WithDomain(st.leases[u], i, d)).value)
  {
    IndexedIsExact(st);
    hide Indexed, AllOk, SetLease, ValidFqdn, FreeFor, Edited, Exact, WithDomain;
    if d != "" {
      IndexDecides(st, u, service, d);
    }
    if Points(st.domainIndex, d, u, service) {
      var j := IndexedIsCarried(st, d, u, service);
      assert j == i;
    }
    if st.leases[u].items[i].customDomain == d {
      UnchangedIsEdited(st, u, i, service);
    }
    if d == "" || FreeFor(st.leases, d, u, service) {
      RelabelSucceeds(st, u, i, service, d);
      WrittenIsEdited(st, u, i, service, d);
    }
  }
}
