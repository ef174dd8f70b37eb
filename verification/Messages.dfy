/** The message server: validation of whole batches first, then staged work on a copy of the
    keeper with the touched credit accounts held in memory and written back at the end.
    Each handler is proved to refine the plain fold in `Ledger`. */
module Messages {
  import opened Coins
  import opened Types
  import opened Reservations
  import opened Accrual
  import opened Names
  import opened Ledger
  import opened Invariants
  import opened Payments
  import opened Batches
  import opened BillingKeeper
  import UuidV7

  // ---------------------------------------------------------------- message validation

  method ValidateBatchLeaseUUIDs(uuids: seq<Uuid>) returns (r: Result<()>)
    ensures r == CheckBatch(uuids)
  {
    hide UuidV7.IsValidUUIDv7;
    if |uuids| == 0 || |uuids| > MAX_BATCH_LEASE_SIZE {
      return Err(InvalidLease);
    }
    var seen: set<Uuid> := {};
    for i := 0 to |uuids|
      invariant forall j :: 0 <= j < i ==> uuids[j] in seen && UuidV7.IsValidUUIDv7(uuids[j])
      invariant forall u :: u in seen ==> exists j :: 0 <= j < i && uuids[j] == u
      invariant forall j, k :: 0 <= j < k < i ==> uuids[j] != uuids[k]
    {
      if !UuidV7.IsValidUUIDv7(uuids[i]) || uuids[i] in seen {
        return Err(InvalidLease);
      }
      seen := seen + {uuids[i]};
    }
    return Ok(());
  }

  method CheckAllowedList(list: seq<Address>) returns (ok: bool)
    ensures ok <==> DistinctAddresses(list)
  {
    var seen: set<Address> := {};
    for i := 0 to |list|
      invariant forall j :: 0 <= j < i ==> list[j] in seen
      invariant forall a :: a in seen ==> exists j :: 0 <= j < i && list[j] == a
      invariant forall j, k :: 0 <= j < k < i ==> list[j] != list[k]
    {
      if list[i] in seen {
        return false;
      }
      seen := seen + {list[i]};
    }
    return true;
  }

  method CheckSuffixes(list: seq<string>) returns (ok: bool)
    ensures ok <==> (forall i :: 0 <= i < |list| ==> ValidSuffix(list[i])) && DistinctStrings(list)
  {
    hide ValidFqdn;
    var seen: set<string> := {};
    for i := 0 to |list|
      invariant forall j :: 0 <= j < i ==> list[j] in seen && ValidSuffix(list[j])
      invariant forall s :: s in seen ==> exists j :: 0 <= j < i && list[j] == s
      invariant forall j, k :: 0 <= j < k < i ==> list[j] != list[k]
    {
      var s := list[i];
      if |s| < 2 || s[0] != '.' {
        return false;
      }
      var rest := IsValidFQDN(s[1..]);
      if rest.Err? || s in seen {
        return false;
      }
      seen := seen + {s};
    }
    return true;
  }

  method ValidateParams(p: Params) returns (ok: bool)
    ensures ok <==> ValidParams(p)
  {
    hide DistinctAddresses, DistinctStrings, ValidSuffix;
    if p.maxLeasesPerTenant == 0 || p.maxLeasesPerTenant > 10_000 {
      return false;
    }
    if p.maxItemsPerLease == 0 || p.maxItemsPerLease > MAX_ITEMS_PER_LEASE_HARD_LIMIT {
      return false;
    }
    if p.minLeaseDuration == 0 || p.minLeaseDuration > 30 * 24 * 3600 {
      return false;
    }
    if p.maxPendingLeasesPerTenant == 0 || p.maxPendingLeasesPerTenant > 1_000 {
      return false;
    }
    if p.pendingTimeout < 60 || p.pendingTimeout > 86400 {
      return false;
    }
    var allowed := CheckAllowedList(p.allowedList);
    if !allowed {
      return false;
    }
    ok := CheckSuffixes(p.reservedDomainSuffixes);
  }

  lemma CheckNext(items: seq<LeaseItemInput>, i: nat)
    requires i < |items| && CheckEachItem(items[..i]).Ok?
    ensures CheckEachItem(items[..i + 1]) == CheckItem(items[i])
  {
    assert items[..i + 1][..i] == items[..i];
  }

  lemma {:induction false} CheckFails(items: seq<LeaseItemInput>, i: nat)
    requires i <= |items| && CheckEachItem(items[..i]).Err?
    ensures CheckEachItem(items) == CheckEachItem(items[..i])
    decreases |items|
  {
    if i == |items| {
      assert items[..i] == items;
    } else {
      var n := |items| - 1;
      assert items[..n][..i] == items[..i];
      CheckFails(items[..n], i);
    }
  }

  /** Per-item checks; returns how many items carry a service name. */
  method CheckItems(items: seq<LeaseItemInput>) returns (r: Result<nat>)
    ensures var spec := CheckEachItem(items); if spec.Ok? then r.Ok? else r == Err(spec.error)
    ensures r.Ok? ==> (r.value == 0 <==> NoneNamed(items)) && (r.value == |items| <==> AllNamed(items)) && r.value <= |items|
  {
    hide CheckItem;
    var hasServiceName := 0;
    for i := 0 to |items|
      invariant CheckEachItem(items[..i]).Ok?
      invariant hasServiceName <= i
      invariant hasServiceName == 0 <==> forall j :: 0 <= j < i ==> items[j].serviceName == ""
      invariant hasServiceName == i <==> forall j :: 0 <= j < i ==> items[j].serviceName != ""
    {
      CheckNext(items, i);
      var checked := CheckItem(items[i]);
      if checked.Err? {
        CheckFails(items, i + 1);
        return Err(checked.error);
      }
      if items[i].serviceName != "" {
        hasServiceName := hasServiceName + 1;
      }
    }
    assert items[..|items|] == items;
    return Ok(hasServiceName);
  }

  method CheckServiceNames(items: seq<LeaseItemInput>) returns (ok: bool)
    ensures ok <==> GoodNames(items)
  {
    hide ValidLabel;
    var seen: set<string> := {};
    for i := 0 to |items|
      invariant forall j :: 0 <= j < i ==> items[j].serviceName in seen && ValidLabel(items[j].serviceName)
      invariant forall s :: s in seen ==> exists j :: 0 <= j < i && items[j].serviceName == s
      invariant forall j, k :: 0 <= j < k < i ==> items[j].serviceName != items[k].serviceName
    {
      var valid := IsValidDNSLabel(items[i].serviceName);
      if !valid || items[i].serviceName in seen {
        return false;
      }
      seen := seen + {items[i].serviceName};
    }
    return true;
  }

  method CheckSkus(items: seq<LeaseItemInput>) returns (ok: bool)
    ensures ok <==> DistinctSkus(items)
  {
    var seen: set<string> := {};
    for i := 0 to |items|
      invariant forall j :: 0 <= j < i ==> items[j].skuUuid in seen
      invariant forall s :: s in seen ==> exists j :: 0 <= j < i && items[j].skuUuid == s
      invariant forall j, k :: 0 <= j < k < i ==> items[j].skuUuid != items[k].skuUuid
    {
      if items[i].skuUuid in seen {
        return false;
      }
      seen := seen + {items[i].skuUuid};
    }
    return true;
  }

  method ValidateLeaseItems(items: seq<LeaseItemInput>) returns (r: Result<()>)
    ensures r == CheckLeaseItems(items)
  {
    hide CheckEachItem, GoodNames, DistinctSkus;
    if |items| == 0 {
      return Err(EmptyLeaseItems);
    }
    if |items| > MAX_ITEMS_PER_LEASE_HARD_LIMIT {
      return Err(TooManyLeaseItems);
    }
    var hasServiceName :- CheckItems(items);
    if hasServiceName > 0 && hasServiceName != |items| {
      return Err(InvalidServiceName);
    }
    if hasServiceName > 0 {
      var good := CheckServiceNames(items);
      return if good then Ok(()) else Err(InvalidServiceName);
    }
    var distinct := CheckSkus(items);
    return if distinct then Ok(()) else Err(DuplicateSku);
  }

  // ---------------------------------------------------------------- pricing and credit

  /** Lock the prices and add up the rates. */
  method PriceAll(catalog: Catalog, inputs: seq<LeaseItemInput>) returns (r: Result<(Quote, Coins)>)
    ensures var spec := PriceItems(catalog, inputs);
            if spec.Err? then r == Err(spec.error) else r == Ok((spec.value, Rates(spec.value.items)))
  {
    hide PriceItems, Rates;
    var providerUuid := "";
    var leaseItems: seq<LeaseItem> := [];
    var totalRates: Coins := NO_COINS;
    PriceNone(catalog);
    assert inputs[..0] == [];
    for i := 0 to |inputs|
      invariant PriceItems(catalog, inputs[..i]) == Ok(Quote(providerUuid, leaseItems)) && totalRates == Rates(leaseItems)
    {
      PriceNext(catalog, inputs, i);
      if PriceItems(catalog, inputs[..i + 1]).Err? {
        PriceFails(catalog, inputs, i + 1);
      }
      if inputs[i].skuUuid !in catalog.skus {
        return Err(SkuNotFound);
      }
      var sku := catalog.skus[inputs[i].skuUuid];
      if !sku.active {
        return Err(SkuNotActive);
      }
      if i == 0 {
        providerUuid := sku.providerUuid;
      } else if sku.providerUuid != providerUuid {
        return Err(MixedProviders);
      }
      var locked := PricePerSecond(sku);
      if locked.None? {
        return Err(SkuNotFound);
      }
      var item := LeaseItem(inputs[i].skuUuid, inputs[i].quantity, locked.value, inputs[i].serviceName, "");
      RatesSnoc(leaseItems, item);
      totalRates := Add(totalRates, Single(Coin(locked.value.denom, locked.value.amount * inputs[i].quantity)));
      leaseItems := leaseItems + [item];
    }
    assert inputs[..|inputs|] == inputs;
    return Ok((Quote(providerUuid, leaseItems), totalRates));
  }

  method ListDenoms(coins: Coins) returns (denoms: seq<string>)
    ensures forall d :: d in denoms <==> d in coins
    ensures forall i, j :: 0 <= i < j < |denoms| ==> denoms[i] != denoms[j]
  {
    denoms := [];
    var todo := coins.Keys;
    while todo != {}
      invariant todo <= coins.Keys
      invariant forall d :: d in denoms <==> d in coins && d !in todo
      invariant forall i, j :: 0 <= i < j < |denoms| ==> denoms[i] != denoms[j]
      decreases |todo|
    {
      var d :| d in todo;
      denoms := denoms + [d];
      todo := todo - {d};
    }
  }

  method CheckCovers(available: Coins, needed: Coins) returns (ok: bool)
    ensures ok <==> Covers(available, needed)
  {
    var todo := needed.Keys;
    while todo != {}
      invariant todo <= needed.Keys
      invariant forall d :: d in needed && d !in todo ==> AmountOf(available, d) >= needed[d]
      decreases |todo|
    {
      var d :| d in todo;
      if AmountOf(available, d) < needed[d] {
        return false;
      }
      todo := todo - {d};
    }
    return true;
  }

  // ---------------------------------------------------------------- the handlers

  datatype PendingBatch = PendingBatch(
    leases: seq<Lease>, creditAccounts: map<Address, CreditAccount>, tenantOrder: seq<Address>, providerUuid: string)

  class MsgServer {
    const k: Keeper

    constructor (keeper: Keeper)
      ensures k == keeper
    {
      k := keeper;
    }

    method ValidatePendingLeaseBatch(uuids: seq<Uuid>) returns (r: Result<PendingBatch>)
      ensures var spec := PendingProvider(k.State(), uuids);
              if spec.Err? then r == Err(spec.error)
              else
                && r.Ok? && r.value.providerUuid == spec.value && AllInState(r.value.leases, Pending)
                && Fetched(k.State(), uuids, r.value.leases, r.value.creditAccounts, r.value.tenantOrder)
    {
      hide PendingProvider, Fetched;
      var leases: seq<Lease> := [];
      var creditAccounts: map<Address, CreditAccount> := map[];
      var tenantOrder: seq<Address> := [];
      var providerUuid := "";
      ghost var st := k.State();
      PendingNone(st);
      FetchedNone(st);
      assert uuids[..0] == [];
      for i := 0 to |uuids|
        invariant PendingProvider(st, uuids[..i]) == Ok(providerUuid)
        invariant Fetched(st, uuids[..i], leases, creditAccounts, tenantOrder) && AllInState(leases, Pending)
      {
        PendingNext(st, uuids, i);
        if PendingProvider(st, uuids[..i + 1]).Err? {
          PendingFails(st, uuids, i + 1);
        }
        if uuids[i] !in k.leases {
          return Err(LeaseNotFound);
        }
        var lease := k.leases[uuids[i]];
        if lease.state != Pending {
          return Err(LeaseNotPending);
        }
        if providerUuid == "" {
          providerUuid := lease.providerUuid;
        } else if lease.providerUuid != providerUuid {
          return Err(MixedProviders);
        }
        if lease.tenant !in creditAccounts {
          if lease.tenant !in k.accounts {
            return Err(CreditAccountNotFound);
          }
          FetchedNext(st, uuids, i, leases, creditAccounts, tenantOrder);
          creditAccounts := creditAccounts[lease.tenant := k.accounts[lease.tenant]];
          tenantOrder := tenantOrder + [lease.tenant];
        } else {
          FetchedHas(st, uuids[..i], leases, creditAccounts, tenantOrder, lease.tenant);
          FetchedNext(st, uuids, i, leases, creditAccounts, tenantOrder);
        }
        leases := leases + [lease];
      }
      assert uuids[..|uuids|] == uuids;
      return Ok(PendingBatch(leases, creditAccounts, tenantOrder, providerUuid));
    }

    /** Write the accounts held in memory to the staged keeper. */
    method PersistAccounts(staged: Keeper, creditAccounts: map<Address, CreditAccount>, tenantOrder: seq<Address>)
      requires forall t :: t in tenantOrder <==> t in creditAccounts
      requires Cached(staged.State(), creditAccounts)
      modifies staged
      ensures staged.State() == Overlay(old(staged.State()), creditAccounts)
    {
      hide Cached, SetAccount, Overlay, Part;
      ghost var st := staged.State();
      PersistNone(st, creditAccounts);
      assert tenantOrder[..0] == [];
      for i := 0 to |tenantOrder|
        invariant staged.State() == Overlay(st, Part(creditAccounts, tenantOrder[..i]))
      {
        assert tenantOrder[i] in tenantOrder;
        PersistNext(st, creditAccounts, tenantOrder, i);
        staged.SetCreditAccount(creditAccounts[tenantOrder[i]]);
      }
      assert tenantOrder[..|tenantOrder|] == tenantOrder;
      PersistAll(creditAccounts, tenantOrder);
    }

    method ValidateProviderAuthorization(env: Env, sender: Address, provider: string) returns (r: Result<Provider>)
      ensures r == AuthorizeProvider(env, sender, provider)
    {
      if provider !in env.catalog.providers {
        return Err(ProviderNotFound);
      }
      var p := env.catalog.providers[provider];
      if sender != p.address && sender != env.authority {
        return Err(Unauthorized);
      }
      return Ok(p);
    }

    /** Returns the number of acknowledged leases. */
    method AcknowledgeLease(env: Env, sender: Address, uuids: seq<Uuid>) returns (r: Result<nat>, inconsistent: bool)
      requires Keyed(k.State())
      modifies k
      ensures Refines(r, Ledger.AcknowledgeLease(env, old(k.State()), sender, uuids), old(k.State()), k.State())
      ensures r.Ok? ==> r.value == |uuids|
      ensures Consistent(old(k.State())) ==> !inconsistent
    {
      inconsistent := false;
      hide Batch, PendingProvider, Fetched, AuthorizeProvider, Staging, Keyed, ValidBatch, Cached, Overlay, One, IsMove, Ledger.SetLease, Consistent, Reservation;
      var _ :- ValidateBatchLeaseUUIDs(uuids);
      assert Distinct(uuids) by { BatchIsDistinct(uuids); }
      var validated :- ValidatePendingLeaseBatch(uuids);
      var _ :- ValidateProviderAuthorization(env, sender, validated.providerUuid);
      var leases, creditAccounts := validated.leases, validated.creditAccounts;
      var staged := new Keeper.Stage(k.State());
      ghost var st0, none: seq<Receipt> := k.State(), [];
      assert none + none == none;
      FetchedShape(st0, uuids, leases, creditAccounts, validated.tenantOrder);
      StagingStart(OpAcknowledge, env, st0, uuids, creditAccounts, leases, validated.tenantOrder);
      for i := 0 to |leases|
        modifies staged
        invariant Staging(OpAcknowledge, env, st0, uuids, i, staged.State(), creditAccounts, leases, [])
        invariant creditAccounts.Keys == validated.creditAccounts.Keys
        invariant Consistent(st0) ==> !inconsistent
      {
        StagingConsistent(OpAcknowledge, env, st0, uuids, i, staged.State(), creditAccounts, leases, []);
        StagingNow(OpAcknowledge, env, st0, uuids, i, staged.State(), creditAccounts, leases, []);
        OverlayShape(staged.State(), creditAccounts);
        var lease := leases[i].(state := Active, acknowledgedAt := Some(env.now), lastSettledAt := env.now);
        AcknowledgeIsMove(env, Overlay(staged.State(), creditAccounts), uuids[i]);
        StagingStep(OpAcknowledge, env, st0, uuids, i, staged.State(), creditAccounts, leases, [], staged.bank, lease, Promote, []);
        var written := staged.SetLease(lease);
        if written.Err? {
          return Err(InvalidLease), inconsistent;
        }
        var counted, zero := staged.DecrementPendingLeaseCount(creditAccounts[lease.tenant]);
        inconsistent := inconsistent || zero;
        creditAccounts := creditAccounts[lease.tenant := counted.(activeLeaseCount := counted.activeLeaseCount + 1)];
      }
      StagingEnd(OpAcknowledge, env, st0, uuids, staged.State(), creditAccounts, leases, []);
      PersistAccounts(staged, creditAccounts, validated.tenantOrder);
      k.Write(staged);
      return Ok(|leases|), inconsistent;
    }

    /** Returns the number of rejected leases. */
    method RejectLease(env: Env, sender: Address, uuids: seq<Uuid>, reason: string) returns (r: Result<nat>, inconsistent: bool)
      requires Keyed(k.State())
      modifies k
      ensures Refines(r, Ledger.RejectLease(env, old(k.State()), sender, uuids, reason), old(k.State()), k.State())
      ensures r.Ok? ==> r.value == |uuids|
      ensures Consistent(old(k.State())) ==> !inconsistent
    {
      inconsistent := false;
      hide Batch, PendingProvider, Fetched, AuthorizeProvider, Staging, Keyed, ValidBatch, Cached, Overlay, One, IsMove, Ledger.SetLease, Reservation, Changed, Consistent, Inconsistent;
      var _ :- ValidateBatchLeaseUUIDs(uuids);
      assert Distinct(uuids) by { BatchIsDistinct(uuids); }
      if |reason| > MAX_REASON_LENGTH {
        return Err(InvalidRejectionReason), inconsistent;
      }
      var validated :- ValidatePendingLeaseBatch(uuids);
      var _ :- ValidateProviderAuthorization(env, sender, validated.providerUuid);
      var leases, creditAccounts := validated.leases, validated.creditAccounts;
      var staged := new Keeper.Stage(k.State());
      ghost var st0, none: seq<Receipt>, op := k.State(), [], OpReject(reason);
      assert none + none == none;
      FetchedShape(st0, uuids, leases, creditAccounts, validated.tenantOrder);
      StagingStart(op, env, st0, uuids, creditAccounts, leases, validated.tenantOrder);
      for i := 0 to |leases|
        modifies staged
        invariant Staging(op, env, st0, uuids, i, staged.State(), creditAccounts, leases, [])
        invariant creditAccounts.Keys == validated.creditAccounts.Keys
        invariant Consistent(st0) ==> !inconsistent
      {
        StagingConsistent(op, env, st0, uuids, i, staged.State(), creditAccounts, leases, []);
        RejectStep(env, st0, uuids, i, staged.State(), creditAccounts, leases, reason);
        var lease := leases[i].(state := Rejected, rejectedAt := Some(env.now), rejectionReason := reason);
        var written := staged.SetLease(lease);
        if written.Err? {
          return Err(InvalidLease), inconsistent;
        }
        SameReservation(leases[i], lease, k.params.minLeaseDuration);
        var released, reported := k.DropPendingLease(creditAccounts[lease.tenant], lease, k.params.minLeaseDuration);
        inconsistent := inconsistent || reported;
        creditAccounts := creditAccounts[lease.tenant := released];
      }
      StagingEnd(op, env, st0, uuids, staged.State(), creditAccounts, leases, []);
      PersistAccounts(staged, creditAccounts, validated.tenantOrder);
      k.Write(staged);
      return Ok(|leases|), inconsistent;
    }

    /** The leases of a cancellation: all of this tenant and pending. */
    method ValidateCancelBatch(tenant: Address, uuids: seq<Uuid>) returns (r: Result<seq<Lease>>)
      ensures var spec := CheckCancel(k.State(), tenant, uuids);
              if spec.Err? then r == Err(spec.error)
              else
                r.Ok? && |r.value| == |uuids| && AllInState(r.value, Pending) && OwnedBy(k.State(), tenant, uuids, r.value)
    {
      hide CheckCancel;
      var leases: seq<Lease> := [];
      CancelNone(k.State(), tenant);
      assert uuids[..0] == [];
      for i := 0 to |uuids|
        invariant CheckCancel(k.State(), tenant, uuids[..i]).Ok? && |leases| == i && AllInState(leases, Pending)
        invariant forall j :: 0 <= j < i ==> uuids[j] in k.leases && leases[j] == k.leases[uuids[j]] && leases[j].tenant == tenant
      {
        CancelNext(k.State(), tenant, uuids, i);
        if CheckCancel(k.State(), tenant, uuids[..i + 1]).Err? {
          CancelFails(k.State(), tenant, uuids, i + 1);
        }
        if uuids[i] !in k.leases {
          return Err(LeaseNotFound);
        }
        var lease := k.leases[uuids[i]];
        if tenant != lease.tenant {
          return Err(Unauthorized);
        }
        if lease.state != Pending {
          return Err(LeaseNotPending);
        }
        leases := leases + [lease];
      }
      assert uuids[..|uuids|] == uuids;
      return Ok(leases);
    }

    /** Returns the number of cancelled leases; one account is held in memory. */
    method CancelLease(env: Env, tenant: Address, uuids: seq<Uuid>) returns (r: Result<nat>, inconsistent: bool)
      requires Keyed(k.State())
      modifies k
      ensures Refines(r, Ledger.CancelLease(env, old(k.State()), tenant, uuids), old(k.State()), k.State())
      ensures r.Ok? ==> r.value == |uuids|
      ensures Consistent(old(k.State())) ==> !inconsistent
    {
      inconsistent := false;
      hide Batch, CheckCancel, Fetched, Staging, Keyed, ValidBatch, Cached, Overlay, One, IsMove, Ledger.SetLease, Reservation, Changed, Alone, OwnedBy, Consistent, Inconsistent;
      var _ :- ValidateBatchLeaseUUIDs(uuids);
      assert Distinct(uuids) by { BatchIsDistinct(uuids); }
      var leases :- ValidateCancelBatch(tenant, uuids);
      if tenant !in k.accounts {
        return Err(CreditAccountNotFound), inconsistent;
      }
      var creditAccount := k.accounts[tenant];
      var staged := new Keeper.Stage(k.State());
      ghost var st0, op := k.State(), OpReject(CANCELLED_BY_TENANT);
      FetchedAlone(st0, uuids, leases, tenant);
      StagingStart(op, env, st0, uuids, Alone(tenant, creditAccount), leases, [tenant]);
      for i := 0 to |leases|
        modifies staged
        invariant Staging(op, env, st0, uuids, i, staged.State(), Alone(tenant, creditAccount), leases, [])
        invariant Consistent(st0) ==> !inconsistent
      {
        StagingConsistent(op, env, st0, uuids, i, staged.State(), Alone(tenant, creditAccount), leases, []);
        AloneUpdate(tenant, creditAccount, creditAccount);
        CancelStep(env, st0, uuids, i, staged.State(), tenant, creditAccount, leases);
        var lease := leases[i].(state := Rejected, rejectedAt := Some(env.now), rejectionReason := CANCELLED_BY_TENANT);
        var written := staged.SetLease(lease);
        if written.Err? {
          return Err(InvalidLease), inconsistent;
        }
        SameReservation(leases[i], lease, k.params.minLeaseDuration);
        var reported;
        creditAccount, reported := k.DropPendingLease(creditAccount, lease, k.params.minLeaseDuration);
        inconsistent := inconsistent || reported;
      }
      StagingEnd(op, env, st0, uuids, staged.State(), Alone(tenant, creditAccount), leases, []);
      PersistOne(staged.State(), tenant, creditAccount);
      staged.SetCreditAccount(creditAccount);
      k.Write(staged);
      return Ok(|leases|), inconsistent;
    }

    /** The leases to close with the accounts of their tenants: all active, and the sender
        may close all of them in the same role. */
    method ValidateCloseBatch(env: Env, sender: Address, uuids: seq<Uuid>) returns (r: Result<PendingBatch>)
      ensures var spec := CloseRole(env, k.State(), sender, uuids);
              if spec.Err? then r == Err(spec.error)
              else
                && r.Ok? && AllInState(r.value.leases, Active)
                && Fetched(k.State(), uuids, r.value.leases, r.value.creditAccounts, r.value.tenantOrder)
    {
      hide CloseRole, Fetched, RoleFor;
      var leases: seq<Lease> := [];
      var creditAccounts: map<Address, CreditAccount> := map[];
      var tenantOrder: seq<Address> := [];
      var providerCache: map<string, Address> := map[];
      var closedBy: Option<Role> := None;
      ghost var st := k.State();
      CloseRoleNone(env, st, sender);
      FetchedNone(st);
      assert uuids[..0] == [];
      for i := 0 to |uuids|
        invariant CloseRole(env, st, sender, uuids[..i]) == Ok(closedBy)
        invariant Fetched(st, uuids[..i], leases, creditAccounts, tenantOrder) && AllInState(leases, Active)
        invariant KnownProviders(env, providerCache)
      {
        CloseRoleNext(env, st, sender, uuids, i);
        if CloseRole(env, st, sender, uuids[..i + 1]).Err? {
          CloseRoleFails(env, st, sender, uuids, i + 1);
        }
        if uuids[i] !in k.leases {
          return Err(LeaseNotFound);
        }
        var lease := k.leases[uuids[i]];
        if lease.state != Active {
          return Err(LeaseNotActive);
        }
        var leaseClosedBy;
        leaseClosedBy, providerCache := DetermineRole(env, sender, lease, providerCache);
        if leaseClosedBy == None {
          return Err(Unauthorized);
        }
        if sender != env.authority {
          if closedBy == None {
            closedBy := leaseClosedBy;
          } else if closedBy != leaseClosedBy {
            return Err(Unauthorized);
          }
        } else {
          OneAuthority(env, st, sender, uuids[..i], lease);
          closedBy := Some(AsAuthority);
        }
        if lease.tenant !in creditAccounts {
          if lease.tenant !in k.accounts {
            return Err(CreditAccountNotFound);
          }
          FetchedNext(st, uuids, i, leases, creditAccounts, tenantOrder);
          creditAccounts := creditAccounts[lease.tenant := k.accounts[lease.tenant]];
          tenantOrder := tenantOrder + [lease.tenant];
        } else {
          FetchedHas(st, uuids[..i], leases, creditAccounts, tenantOrder, lease.tenant);
          FetchedNext(st, uuids, i, leases, creditAccounts, tenantOrder);
        }
        leases := leases + [lease];
      }
      assert uuids[..|uuids|] == uuids;
      return Ok(PendingBatch(leases, creditAccounts, tenantOrder, ""));
    }

    /** The role in which the sender may close the lease; provider lookups are remembered. */
    method DetermineRole(env: Env, sender: Address, lease: Lease, providerCache: map<string, Address>)
      returns (role: Option<Role>, cache: map<string, Address>)
      requires KnownProviders(env, providerCache)
      ensures role == RoleFor(env, sender, lease) && KnownProviders(env, cache)
    {
      role, cache := None, providerCache;
      if sender == lease.tenant {
        role := Some(AsTenant);
      }
      if sender == env.authority {
        role := Some(AsAuthority);
      }
      if role == None {
        if lease.providerUuid !in cache && lease.providerUuid in env.catalog.providers {
          cache := cache[lease.providerUuid := env.catalog.providers[lease.providerUuid].address];
        }
        if lease.providerUuid in cache && sender == cache[lease.providerUuid] {
          role := Some(AsProvider);
        }
      }
    }

    /** Settle one lease on the staged keeper and write it back closed. */
    method CloseStaged(env: Env, staged: Keeper, lease: Lease, reason: string) returns (r: Result<(Lease, SettlementResult)>)
      modifies staged
      ensures var plan := ClosePlan(old(staged.bank), env, lease, reason);
              if plan.Err? then r == Err(plan.error)
              else
                var written := Ledger.SetLease(old(staged.State()).(bank := plan.value.0.bank), plan.value.1);
                if written.Err? then r == Err(InvalidLease)
                else
                  && r.Ok? && staged.State() == written.value && r.value.0 == plan.value.1
                  && r.value.1.transferAmounts == plan.value.0.transfer && r.value.1.accruedAmounts == plan.value.0.accrued
    {
      hide Settle, ShouldAutoClose, Ledger.SetLease;
      var shouldClose :- staged.ShouldAutoCloseLease(env.now, lease);
      var result, closed := SettlementResult(NO_COINS, NO_COINS, NO_COINS), lease;
      if shouldClose.Some? {
        var closeTime := shouldClose.value;
        result :- staged.PerformSettlementCore(env, lease, closeTime, true);
        closed := lease.(state := Closed, closedAt := Some(closeTime), lastSettledAt := closeTime, closureReason := CREDIT_EXHAUSTED);
      } else {
        result :- staged.PerformSettlementCore(env, lease, env.now, false);
        closed := lease.(state := Closed, closedAt := Some(env.now), lastSettledAt := env.now, closureReason := reason);
      }
      var written := staged.SetLease(closed);
      if written.Err? {
        return Err(InvalidLease);
      }
      return Ok((closed, result));
    }

    /** Close the fetched leases on the staged keeper; the accounts stay in memory. */
    method ApplyCloses(env: Env, staged: Keeper, uuids: seq<Uuid>, batch: PendingBatch, reason: string, ghost st0: Store)
      returns (r: Result<(map<Address, CreditAccount>, Coins)>, inconsistent: bool, ghost receipts: seq<Receipt>)
      requires staged != k && k.params == st0.params && Distinct(uuids)
      requires |batch.leases| == |uuids| && AllInState(batch.leases, Active)
      requires Staging(OpClose(reason), env, st0, uuids, 0, staged.State(), batch.creditAccounts, batch.leases, [])
      modifies staged
      ensures r.Err? ==> Batch(OpClose(reason), env, st0, uuids) == Err(r.error)
      ensures r.Ok? ==> r.value.0.Keys == batch.creditAccounts.Keys && r.value.1 == TotalOf(receipts) &&
                        Staging(OpClose(reason), env, st0, uuids, |uuids|, staged.State(), r.value.0, batch.leases, receipts)
      ensures Consistent(st0) ==> !inconsistent
    {
      hide Batch, Staging, One, Ledger.SetLease, Reservation, Changed, ClosePlan, TotalOf, MakeReceipt, Consistent, Inconsistent;
      inconsistent := false;
      var leases, creditAccounts, total := batch.leases, batch.creditAccounts, NO_COINS;
      receipts := [];
      TotalNone();
      for i := 0 to |leases|
        invariant Staging(OpClose(reason), env, st0, uuids, i, staged.State(), creditAccounts, leases, receipts)
        invariant creditAccounts.Keys == batch.creditAccounts.Keys && total == TotalOf(receipts)
        invariant Consistent(st0) ==> !inconsistent
      {
        StagingConsistent(OpClose(reason), env, st0, uuids, i, staged.State(), creditAccounts, leases, receipts);
        CloseStep(env, st0, uuids, i, staged.State(), creditAccounts, leases, receipts, reason);
        ghost var plan := ClosePlan(staged.bank, env, leases[i], reason);
        var closed := CloseStaged(env, staged, leases[i], reason);
        if closed.Err? {
          return Err(closed.error), inconsistent, receipts;
        }
        var lease := closed.value.0;
        SameReservation(leases[i], lease, k.params.minLeaseDuration);
        var released, reported := k.DropActiveLease(creditAccounts[lease.tenant], lease, k.params.minLeaseDuration);
        inconsistent := inconsistent || reported;
        creditAccounts := creditAccounts[lease.tenant := released];
        TotalWith(receipts, env.catalog, leases[i], env.now, plan.value.0);
        receipts := receipts + [MakeReceipt(env.catalog, leases[i], env.now, plan.value.0, true)];
        total := Add(total, closed.value.1.transferAmounts);
      }
      return Ok((creditAccounts, total)), inconsistent, receipts;
    }

    /** Returns the number of closed leases and the total paid. */
    method CloseLease(env: Env, sender: Address, uuids: seq<Uuid>, reason: string) returns (r: Result<(nat, Coins)>, inconsistent: bool)
      requires Keyed(k.State())
      modifies k
      ensures var spec := Ledger.CloseLease(env, old(k.State()), sender, uuids, reason);
              Refines(r, spec, old(k.State()), k.State()) && (r.Ok? ==> r.value == (|uuids|, TotalOf(spec.value.receipts)))
      ensures Consistent(old(k.State())) ==> !inconsistent
    {
      hide Batch, CloseRole, Fetched, Staging, Keyed, ValidBatch, Cached, Overlay, One, TotalOf, Consistent;
      inconsistent := false;
      var _ :- ValidateBatchLeaseUUIDs(uuids);
      assert Distinct(uuids) by { BatchIsDistinct(uuids); }
      if |reason| > MAX_REASON_LENGTH {
        return Err(InvalidClosureReason), inconsistent;
      }
      var validated :- ValidateCloseBatch(env, sender, uuids);
      var staged := new Keeper.Stage(k.State());
      ghost var st0 := k.State();
      FetchedShape(st0, uuids, validated.leases, validated.creditAccounts, validated.tenantOrder);
      StagingStart(OpClose(reason), env, st0, uuids, validated.creditAccounts, validated.leases, validated.tenantOrder);
      var applied, reported, receipts := ApplyCloses(env, staged, uuids, validated, reason, st0);
      inconsistent := reported;
      if applied.Err? {
        return Err(applied.error), inconsistent;
      }
      StagingEnd(OpClose(reason), env, st0, uuids, staged.State(), applied.value.0, validated.leases, receipts);
      PersistAccounts(staged, applied.value.0, validated.tenantOrder);
      k.Write(staged);
      return Ok((|uuids|, applied.value.1)), inconsistent;
    }

    // -------------------------------------------------------------- withdrawals

    /** The leases to withdraw from and their common provider, for whom the sender may act. */
    method ValidateWithdrawBatch(env: Env, sender: Address, uuids: seq<Uuid>) returns (r: Result<(seq<Lease>, Option<Provider>)>)
      ensures var spec := WithdrawProvider(env, k.State(), sender, uuids);
              if spec.Err? then r == Err(spec.error)
              else r.Ok? && |r.value.0| == |uuids| && Stored(k.State(), uuids, r.value.0) && PaysTo(env, uuids, spec.value, r.value.1)
    {
      hide WithdrawProvider;
      var leases: seq<Lease> := [];
      var provider: Option<Provider> := None;
      var providerUuid := "";
      ghost var st := k.State();
      WithdrawProviderNone(env, st, sender);
      assert uuids[..0] == [];
      for i := 0 to |uuids|
        invariant |leases| == i && Stored(st, uuids[..i], leases)
        invariant WithdrawProvider(env, st, sender, uuids[..i]) == Ok(providerUuid) && PaysTo(env, uuids[..i], providerUuid, provider)
      {
        WithdrawProviderNext(env, st, sender, uuids, i);
        if WithdrawProvider(env, st, sender, uuids[..i + 1]).Err? {
          WithdrawProviderFails(env, st, sender, uuids, i + 1);
        }
        if uuids[i] !in k.leases {
          return Err(LeaseNotFound);
        }
        var lease := k.leases[uuids[i]];
        if i == 0 {
          providerUuid := lease.providerUuid;
          var authorized :- ValidateProviderAuthorization(env, sender, providerUuid);
          provider := Some(authorized);
        } else if lease.providerUuid != providerUuid {
          return Err(InvalidLease);
        }
        leases := leases + [lease];
      }
      assert uuids[..|uuids|] == uuids;
      return Ok((leases, provider));
    }

    /** Close an active lease whose credit is exhausted; returns what that paid. */
    method AutoCloseIfExhausted(env: Env, staged: Keeper, lease: Lease) returns (r: Result<Option<Coins>>, inconsistent: bool)
      modifies staged
      ensures var exhausted := ShouldAutoClose(old(staged.bank), lease, env.now);
              if exhausted.Err? then r == Err(exhausted.error)
              else if !exhausted.value then r == Ok(None) && staged.State() == old(staged.State())
              else
                var spec := Finish(old(staged.State()), env, lease, true, CREDIT_EXHAUSTED, false);
                if spec.Err? then r == Err(spec.error)
                else r.Ok? && r.value.Some? && staged.State() == spec.value.st && Pays(spec.value.receipts, r.value)
      ensures Consistent(old(staged.State())) && IsStored(old(staged.leases), lease) ==> !inconsistent
    {
      hide ShouldAutoClose, Finish, MakeReceipt, Consistent, Settle, Ledger.SetLease, SetAccount, Changed, Reservation, WithMinimum, ClosedLease, IsStored;
      inconsistent := false;
      SameMinimumIsSameStore(staged.State());
      FinishWithMinimum(staged.State(), env, lease, staged.params.minLeaseDuration);
      if lease.state == Active {
        var closeTime :- staged.ShouldAutoCloseLease(env.now, lease);
        if closeTime.Some? {
          assert env.(now := closeTime.value) == env;
          var closed, reported := staged.AutoCloseLease(env, lease, closeTime.value, staged.params.minLeaseDuration);
          inconsistent := reported;
          if closed.Err? {
            return Err(closed.error), inconsistent;
          }
          ReceiptTransfer(env.catalog, lease, env.now, Settlement(staged.bank, closed.value.transferAmounts, closed.value.accruedAmounts));
          return Ok(Some(closed.value.transferAmounts)), inconsistent;
        }
      }
      NotActiveStaysOpen(staged.bank, lease, env.now);
      return Ok(None), inconsistent;
    }

    /** Settle one lease on the staged keeper, closing it when its credit is exhausted.
        Returns what was paid, or nothing when there was nothing to settle. */
    method WithdrawStaged(env: Env, staged: Keeper, lease: Lease) returns (r: Result<Option<Coins>>, inconsistent: bool)
      modifies staged
      ensures var spec := WithdrawOne(old(staged.State()), env, lease);
              if spec.Err? then r == Err(spec.error)
              else r.Ok? && staged.State() == spec.value.st && Pays(spec.value.receipts, r.value)
      ensures Consistent(old(staged.State())) && IsStored(old(staged.leases), lease) ==> !inconsistent
    {
      hide Settle, ShouldAutoClose, Ledger.SetLease, Finish, MakeReceipt, Consistent;
      inconsistent := false;
      var closed, reported := AutoCloseIfExhausted(env, staged, lease);
      inconsistent := reported;
      if closed.Err? || closed.value.Some? {
        return closed, inconsistent;
      }
      var settleTime;
      if lease.state == Active {
        settleTime := env.now;
      } else if lease.closedAt.Some? {
        settleTime := lease.closedAt.value;
      } else {
        settleTime := lease.lastSettledAt;
      }
      ghost var s := Settle(staged.bank, env.catalog, lease, settleTime, false);
      var result :- staged.PerformSettlementCore(env, lease, settleTime, false);
      if result.accruedAmounts == NO_COINS {
        NoAccrualNoPayment(old(staged.bank), env.catalog, lease, settleTime, false);
        return Ok(None), inconsistent;
      }
      var _ :- staged.SetLease(lease.(lastSettledAt := settleTime));
      ReceiptTransfer(env.catalog, lease, settleTime, s.value);
      return Ok(Some(result.transferAmounts)), inconsistent;
    }

    /** Settle the fetched leases on the staged keeper. */
    method ApplyWithdrawals(env: Env, staged: Keeper, uuids: seq<Uuid>, leases: seq<Lease>, ghost st0: Store)
      returns (r: Result<(Coins, nat)>, inconsistent: bool, ghost receipts: seq<Receipt>)
      requires staged.State() == st0 && Distinct(uuids) && |leases| == |uuids| && LeasesFiled(st0.leases) && Stored(st0, uuids, leases)
      modifies staged
      ensures r.Err? ==> Batch(OpWithdraw, env, st0, uuids) == Err(r.error)
      ensures r.Ok? ==> Batch(OpWithdraw, env, st0, uuids) == Ok(Out(staged.State(), receipts)) && r.value == (TotalOf(receipts), |receipts|)
      ensures Consistent(st0) ==> !inconsistent
    {
      hide Batch, One, WithdrawOne, TotalOf, ToCome, Stored, LeasesFiled, Consistent, IsStored;
      inconsistent := false;
      var total, count := NO_COINS, 0;
      ghost var tenants := set l | l in leases :: l.tenant;
      receipts := [];
      TotalNone();
      BatchNone(OpWithdraw, env, st0);
      assert uuids[..0] == [];
      StoredIsToCome(st0, uuids, leases);
      for i := 0 to |leases|
        invariant Batch(OpWithdraw, env, st0, uuids[..i]) == Ok(Out(staged.State(), receipts))
        invariant ToCome(staged.leases, uuids, i, leases, tenants)
        invariant total == TotalOf(receipts) && count == |receipts|
        invariant Consistent(st0) ==> !inconsistent
      {
        if Consistent(st0) {
          ConsistentSoFar(OpWithdraw, env, st0, uuids, i);
        }
        TurnIsStored(staged.leases, uuids, i, leases, tenants);
        WithdrawStep(env, st0, uuids, i, staged.State(), leases, tenants, receipts);
        ghost var step := WithdrawOne(staged.State(), env, leases[i]);
        var paid, reported := WithdrawStaged(env, staged, leases[i]);
        inconsistent := inconsistent || reported;
        if paid.Err? {
          return Err(paid.error), inconsistent, receipts;
        }
        TotalPays(receipts, step.value.receipts, paid.value);
        receipts := receipts + step.value.receipts;
        if paid.value.Some? {
          total := Add(total, paid.value.value);
          count := count + 1;
        }
      }
      assert uuids[..|uuids|] == uuids;
      return Ok((total, count)), inconsistent, receipts;
    }

    /** Returns the total paid, the payout address and the number of leases settled. */
    method WithdrawFromLeases(env: Env, sender: Address, uuids: seq<Uuid>) returns (r: Result<(Coins, Address, nat)>, inconsistent: bool)
      requires Keyed(k.State())
      modifies k
      ensures var spec := WithdrawLeases(env, old(k.State()), sender, uuids);
              && Refines(r, spec, old(k.State()), k.State())
              && (r.Ok? ==> r.value.0 == TotalOf(spec.value.receipts) && r.value.2 == |spec.value.receipts|
                            && PayoutOf(env, WithdrawProvider(env, old(k.State()), sender, uuids)) == Some(r.value.1))
      ensures Consistent(old(k.State())) ==> !inconsistent
    {
      hide Batch, WithdrawProvider, ValidBatch, TotalOf, Stored, LeasesFiled, AccountsFiled, CreditIndexOf, Distinct, Consistent;
      inconsistent := false;
      var _ :- ValidateBatchLeaseUUIDs(uuids);
      assert Distinct(uuids) by { BatchIsDistinct(uuids); }
      assert uuids != [] by { BatchIsNotEmpty(uuids); }
      var validated :- ValidateWithdrawBatch(env, sender, uuids);
      var staged := new Keeper.Stage(k.State());
      var applied, reported, receipts := ApplyWithdrawals(env, staged, uuids, validated.0, k.State());
      inconsistent := reported;
      if applied.Err? {
        return Err(applied.error), inconsistent;
      }
      if applied.value.1 == 0 {
        return Err(NoWithdrawableAmount), inconsistent;
      }
      k.Write(staged);
      return Ok((applied.value.0, validated.1.value.payoutAddress, applied.value.1)), inconsistent;
    }

    /** The provider's leases in one state, appended up to the limit; says when some are left. */
    method CollectLeases(provider: string, state: LeaseState, limit: nat, before: seq<Uuid>) returns (uuids: seq<Uuid>, hasMore: bool)
      requires |before| <= limit
      ensures var all := before + ProviderLeases(k.State(), provider, state);
              uuids == Text.Take(all, limit) && (hasMore <==> |all| > limit)
    {
      var keys := ProviderLeases(k.State(), provider, state);
      hide ProviderLeases;
      uuids := before;
      for i := 0 to |keys|
        invariant uuids == before + keys[..i] && |uuids| <= limit
      {
        if |uuids| >= limit {
          return uuids, true;
        }
        uuids := uuids + [keys[i]];
      }
      assert keys[..|keys|] == keys;
      return uuids, false;
    }

    /** Settle one lease of a sweep in its own stage; a lease that fails or pays nothing is
        passed over. */
    method SweepLease(env: Env, uuid: Uuid) returns (paid: Option<Coins>, inconsistent: bool)
      modifies k
      ensures var spec := One(OpSweep, env, old(k.State()), uuid);
              spec.Ok? && k.State() == spec.value.st && Pays(spec.value.receipts, paid)
      ensures Consistent(old(k.State())) ==> !inconsistent
    {
      hide One, SweepOne, Consistent, IsStored;
      SweepIsLenient(env, k.State(), uuid);
      if uuid !in k.leases {
        return None, false;
      }
      var staged := new Keeper.Stage(k.State());
      if Consistent(k.State()) {
        StoredUnderKey(k.State(), uuid);
      }
      var r;
      r, inconsistent := SweepStaged(env, staged, k.leases[uuid]);
      if r.Err? {
        return None, inconsistent;
      }
      if r.value.Some? {
        k.Write(staged);
      }
      return r.value, inconsistent;
    }

    method SweepStaged(env: Env, staged: Keeper, lease: Lease) returns (r: Result<Option<Coins>>, inconsistent: bool)
      modifies staged
      ensures var spec := SweepOne(old(staged.State()), env, lease);
              if spec.Err? then r == Err(spec.error)
              else
                && r.Ok? && Pays(spec.value.receipts, r.value)
                && (r.value.Some? ==> staged.State() == spec.value.st) && (r.value.None? ==> spec.value.st == old(staged.State()))
      ensures Consistent(old(staged.State())) && IsStored(old(staged.leases), lease) ==> !inconsistent
    {
      hide Settle, ShouldAutoClose, Ledger.SetLease, Finish, MakeReceipt, Consistent;
      inconsistent := false;
      var closed, reported := AutoCloseIfExhausted(env, staged, lease);
      inconsistent := reported;
      if closed.Err? || closed.value.Some? {
        return closed, inconsistent;
      }
      var settleTime;
      if lease.state == Active {
        settleTime := env.now;
      } else if lease.closedAt.Some? {
        settleTime := lease.closedAt.value;
      } else {
        return Ok(None), inconsistent;
      }
      if settleTime <= lease.lastSettledAt {
        return Ok(None), inconsistent;
      }
      ghost var s := Settle(staged.bank, env.catalog, lease, settleTime, true);
      if s.Ok? {
        ReceiptTransfer(env.catalog, lease, settleTime, s.value);
      }
      r := SweepSettled(env, staged, lease, settleTime);
    }

    /** Settle up to the given time; overflow takes what is left. */
    method SweepSettled(env: Env, staged: Keeper, lease: Lease, settleTime: Time) returns (r: Result<Option<Coins>>)
      modifies staged
      ensures var s := Settle(old(staged.bank), env.catalog, lease, settleTime, true);
              if s.Err? then r == Err(s.error)
              else if s.value.transfer == NO_COINS then r == Ok(None)
              else
                var written := Ledger.SetLease(old(staged.State()).(bank := s.value.bank), lease.(lastSettledAt := settleTime));
                if written.Err? then r == Err(written.error) else r == Ok(Some(s.value.transfer)) && staged.State() == written.value
    {
      hide Settle, Ledger.SetLease;
      var result :- staged.PerformSettlementCore(env, lease, settleTime, true);
      if result.transferAmounts == NO_COINS {
        return Ok(None);
      }
      var _ :- staged.SetLease(lease.(lastSettledAt := settleTime));
      return Ok(Some(result.transferAmounts));
    }

    /** Returns the total paid, the payout address, the number of leases settled and whether
        the limit left some out. */
    method WithdrawFromProvider(env: Env, sender: Address, providerUuid: string, requested: nat)
      returns (r: Result<(Coins, Address, nat, bool)>, inconsistent: bool)
      modifies k
      ensures var st := old(k.State());
              var spec := WithdrawAll(env, st, sender, providerUuid, requested);
              && Refines(r, spec, st, k.State())
              && (r.Ok? ==>
                    && r.value.0 == TotalOf(spec.value.receipts) && r.value.2 == |spec.value.receipts|
                    && PayoutOf(env, Ok(providerUuid)) == Some(r.value.1)
                    && (r.value.3 <==> |ProviderLeases(st, providerUuid, Active)| + |ProviderLeases(st, providerUuid, Closed)| > EffectiveLimit(requested)))
      ensures Consistent(old(k.State())) ==> !inconsistent
    {
      hide Batch, One, TotalOf, ProviderLeases, UuidV7.IsValidUUIDv7, Pays, Consistent;
      inconsistent := false;
      if !UuidV7.IsValidUUIDv7(providerUuid) {
        return Err(ProviderNotFound), inconsistent;
      }
      if requested > MAX_BATCH_LEASE_SIZE {
        return Err(InvalidLease), inconsistent;
      }
      var provider :- ValidateProviderAuthorization(env, sender, providerUuid);
      var limit := requested;
      if limit == 0 {
        limit := DEFAULT_PROVIDER_WITHDRAW_LIMIT;
      }
      ghost var st0 := k.State();
      var targets, hasMore := CollectTargets(providerUuid, limit);
      var total, count := NO_COINS, 0;
      ghost var receipts: seq<Receipt> := [];
      TotalNone();
      BatchNone(OpSweep, env, st0);
      assert targets[..0] == [];
      for i := 0 to |targets|
        invariant Batch(OpSweep, env, st0, targets[..i]) == Ok(Out(k.State(), receipts))
        invariant total == TotalOf(receipts) && count == |receipts|
        invariant Consistent(st0) ==> !inconsistent
      {
        if Consistent(st0) {
          ConsistentSoFar(OpSweep, env, st0, targets, i);
        }
        BatchNext(OpSweep, env, st0, targets, i);
        ghost var step := One(OpSweep, env, k.State(), targets[i]);
        var paid, reported := SweepLease(env, targets[i]);
        inconsistent := inconsistent || reported;
        TotalPays(receipts, step.value.receipts, paid);
        receipts := receipts + step.value.receipts;
        if paid.Some? {
          total := Add(total, paid.value);
          count := count + 1;
        }
      }
      assert targets[..|targets|] == targets;
      return Ok((total, provider.payoutAddress, count, hasMore)), inconsistent;
    }

    /** Active leases first, then closed ones unless the limit is already exceeded. */
    method CollectTargets(provider: string, limit: nat) returns (uuids: seq<Uuid>, hasMore: bool)
      ensures var all := ProviderLeases(k.State(), provider, Active) + ProviderLeases(k.State(), provider, Closed);
              uuids == Text.Take(all, limit) && (hasMore <==> |all| > limit)
    {
      hide ProviderLeases;
      ghost var active := ProviderLeases(k.State(), provider, Active);
      assert [] + active == active;
      uuids, hasMore := CollectLeases(provider, Active, limit, []);
      if !hasMore {
        uuids, hasMore := CollectLeases(provider, Closed, limit, uuids);
      }
    }

    /** The two modes of a withdrawal exclude each other. */
    method Withdraw(env: Env, sender: Address, uuids: seq<Uuid>, providerUuid: string, limit: nat) returns (r: Result<Coins>, inconsistent: bool)
      requires Keyed(k.State())
      modifies k
      ensures var st := old(k.State());
              if (uuids == []) == (providerUuid == "") then r == Err(InvalidRequest) && k.State() == st
              else
                var spec := if uuids == [] then WithdrawAll(env, st, sender, providerUuid, limit) else WithdrawLeases(env, st, sender, uuids);
                Refines(r, spec, st, k.State()) && (r.Ok? ==> r.value == TotalOf(spec.value.receipts))
      ensures Consistent(old(k.State())) ==> !inconsistent
    {
      hide WithdrawAll, WithdrawLeases, TotalOf, Consistent;
      inconsistent := false;
      var hasLeases, hasProvider := |uuids| > 0, providerUuid != "";
      if hasLeases && hasProvider {
        return Err(InvalidRequest), inconsistent;
      }
      if !hasLeases && !hasProvider {
        return Err(InvalidRequest), inconsistent;
      }
      if hasProvider {
        var swept, reported := WithdrawFromProvider(env, sender, providerUuid, limit);
        return (if swept.Ok? then Ok(swept.value.0) else Err(swept.error)), reported;
      }
      var withdrawn, reported := WithdrawFromLeases(env, sender, uuids);
      return (if withdrawn.Ok? then Ok(withdrawn.value.0) else Err(withdrawn.error)), reported;
    }

    // -------------------------------------------------------------- lease creation

    /** Lease creation on the keeper of the running transaction; a refusal rolls the
        transaction back.  Returns the identifier of the new lease. */
    method CreateLeaseInternal(ctx: Keeper, env: Env, tenant: Address, inputs: seq<LeaseItemInput>, metaHash: seq<int>) returns (r: Result<Uuid>)
      modifies ctx
      ensures var spec := Creation(env, old(ctx.State()), tenant, inputs, metaHash);
              StagedOutcome(r, spec, ctx.State())
      ensures r.Ok? ==> r.value == UuidV7.Generate(env.now, env.entropy, old(ctx.sequence)) && UuidV7.IsValidUUIDv7(r.value)
    {
      hide PriceItems, Rates, Scale, Covers, UuidV7.Generate, UuidV7.IsValidUUIDv7, Free, Place, NewLease, Reserve;
      var creditAccount :- CheckAdmission(ctx, tenant, |inputs|);
      var priced :- PriceAll(env.catalog, inputs);
      var providerUuid := priced.0.provider;
      if providerUuid !in env.catalog.providers {
        return Err(ProviderNotFound);
      }
      if !env.catalog.providers[providerUuid].active {
        return Err(ProviderNotActive);
      }
      var reservation := CalculateLeaseReservationFromRates(priced.1, ctx.params.minLeaseDuration);
      var covered := CheckAvailable(ctx, tenant, priced.1, reservation);
      if !covered {
        return Err(InsufficientCredit);
      }
      r := PlaceLease(ctx, env, tenant, priced.0, metaHash, creditAccount, reservation);
    }

    method CheckAdmission(ctx: Keeper, tenant: Address, count: nat) returns (r: Result<CreditAccount>)
      ensures r == Admit(ctx.State(), tenant, count)
    {
      if count > ctx.params.maxItemsPerLease {
        return Err(TooManyLeaseItems);
      }
      if tenant !in ctx.accounts {
        return Err(CreditAccountNotFound);
      }
      var creditAccount := ctx.accounts[tenant];
      if creditAccount.activeLeaseCount >= ctx.params.maxLeasesPerTenant {
        return Err(MaxLeasesReached);
      }
      if creditAccount.pendingLeaseCount >= ctx.params.maxPendingLeasesPerTenant {
        return Err(MaxPendingLeasesReached);
      }
      return Ok(creditAccount);
    }

    /** Reserve the credit, take a sequence number and write the lease and the account. */
    method PlaceLease(ctx: Keeper, env: Env, tenant: Address, quote: Quote, metaHash: seq<int>, account: CreditAccount, reservation: Coins)
      returns (r: Result<Uuid>)
      modifies ctx
      ensures var st := old(ctx.State());
              StagedOutcome(r, Place(st, NewLease(env, st, tenant, quote, metaHash), Reserve(account, reservation)), ctx.State())
      ensures r.Ok? ==> r.value == UuidV7.Generate(env.now, env.entropy, old(ctx.sequence)) && UuidV7.IsValidUUIDv7(r.value)
    {
      hide Ledger.SetLease, UuidV7.Generate, UuidV7.IsValidUUIDv7, Add;
      var creditAccount := account.(reservedAmounts := Add(account.reservedAmounts, reservation));
      var leaseSeq := ctx.sequence;
      ctx.sequence := ctx.sequence + 1;
      var leaseUuid := UuidV7.GenerateUUIDv7WithEntropy(env.now, env.entropy, leaseSeq);
      var lease := Lease(leaseUuid, tenant, quote.provider, quote.items, Pending, env.now, None, env.now,
                         None, None, "", None, "", metaHash, ctx.params.minLeaseDuration);
      var _ :- ctx.SetLease(lease);
      creditAccount := creditAccount.(pendingLeaseCount := creditAccount.pendingLeaseCount + 1);
      ctx.SetCreditAccount(creditAccount);
      return Ok(leaseUuid);
    }

    /** The free credit of the tenant covers the reservation in every denomination. */
    method CheckAvailable(ctx: Keeper, tenant: Address, rates: Coins, reservation: Coins) returns (ok: bool)
      requires tenant in ctx.accounts
      ensures ok <==> Covers(Free(ctx.State(), tenant, rates.Keys), reservation)
    {
      var denoms := ListDenoms(rates);
      var balances := ctx.GetCreditBalancesForDenoms(tenant, denoms);
      assert (set d | d in denoms) == rates.Keys;
      var available := GetAvailableCredit(balances, ctx.accounts[tenant].reservedAmounts);
      ok := CheckCovers(available, reservation);
    }

    method CreateLease(env: Env, tenant: Address, inputs: seq<LeaseItemInput>, metaHash: seq<int>) returns (r: Result<Uuid>)
      modifies k
      ensures Refines(r, Ledger.CreateLease(env, old(k.State()), tenant, inputs, metaHash), old(k.State()), k.State())
      ensures r.Ok? ==> r.value == UuidV7.Generate(env.now, env.entropy, old(k.sequence)) && UuidV7.IsValidUUIDv7(r.value)
    {
      hide Creation, CheckLeaseItems, UuidV7.Generate, UuidV7.IsValidUUIDv7, Ledger.CreateLease;
      CreateIsCreation(env, k.State(), tenant, inputs, metaHash);
      if |metaHash| > MAX_META_HASH_LENGTH {
        return Err(InvalidMetaHash);
      }
      var _ :- ValidateLeaseItems(inputs);
      var tx := new Keeper.Stage(k.State());
      var uuid :- CreateLeaseInternal(tx, env, tenant, inputs, metaHash);
      k.Write(tx);
      return Ok(uuid);
    }

    method CreateLeaseForTenant(env: Env, sender: Address, tenant: Address, inputs: seq<LeaseItemInput>, metaHash: seq<int>) returns (r: Result<Uuid>)
      modifies k
      ensures Refines(r, Ledger.CreateLeaseForTenant(env, old(k.State()), sender, tenant, inputs, metaHash), old(k.State()), k.State())
      ensures r.Ok? ==> r.value == UuidV7.Generate(env.now, env.entropy, old(k.sequence))
    {
      hide Creation, CheckLeaseItems, UuidV7.Generate, Ledger.CreateLease;
      CreateIsCreation(env, k.State(), tenant, inputs, metaHash);
      if |metaHash| > MAX_META_HASH_LENGTH {
        return Err(InvalidMetaHash);
      }
      var _ :- ValidateLeaseItems(inputs);
      if sender != env.authority && sender !in k.params.allowedList {
        return Err(Unauthorized);
      }
      var tx := new Keeper.Stage(k.State());
      var uuid :- CreateLeaseInternal(tx, env, tenant, inputs, metaHash);
      k.Write(tx);
      return Ok(uuid);
    }

    // -------------------------------------------------------------- funding, domains and parameters

    /** Returns the new balance in the funded denomination. */
    method FundCredit(sender: Address, tenant: Address, amount: Coin) returns (r: Result<Coin>)
      modifies k
      ensures Refines(r, Ledger.FundCredit(old(k.State()), sender, tenant, amount), old(k.State()), k.State())
      ensures r.Ok? ==> r.value == Coin(amount.denom, AmountOf(Balance(k.bank, Credit(tenant)), amount.denom))
      ensures r.Ok? && sender != Credit(tenant) ==>
                r.value.amount == AmountOf(Balance(old(k.bank), Credit(tenant)), amount.denom) + amount.amount
    {
      hide Send, ValidDenom;
      if !ValidDenom(amount.denom) || amount.amount == 0 {
        return Err(InvalidCreditOperation);
      }
      var staged := new Keeper.Stage(k.State());
      var sent :- Send(staged.bank, sender, Credit(tenant), Single(amount));
      staged.bank := sent;
      SendMoves(k.bank, sender, Credit(tenant), Single(amount), Credit(tenant), amount.denom);
      var creditAccount := CreditAccount(tenant, Credit(tenant), 0, 0, NO_COINS);
      if tenant in staged.accounts {
        creditAccount := staged.accounts[tenant];
      }
      staged.SetCreditAccount(creditAccount);
      k.Write(staged);
      return Ok(Coin(amount.denom, AmountOf(Balance(k.bank, Credit(tenant)), amount.denom)));
    }

    method SetItemCustomDomain(env: Env, sender: Address, uuid: Uuid, serviceName: string, customDomain: string) returns (r: Result<()>)
      modifies k
      ensures Refines(r, Ledger.SetItemCustomDomain(env, old(k.State()), sender, uuid, serviceName, customDomain), old(k.State()), k.State())
    {
      hide DomainEdit, Ledger.SetLease, ValidFqdn, ValidLabel, UuidV7.IsValidUUIDv7;
      if !UuidV7.IsValidUUIDv7(uuid) {
        return Err(InvalidLease);
      }
      if serviceName != "" {
        var named := IsValidDNSLabel(serviceName);
        if !named {
          return Err(InvalidServiceName);
        }
      }
      if customDomain != "" {
        var _ :- IsValidFQDN(customDomain);
      }
      r := k.SetItemCustomDomain(env, sender, uuid, serviceName, customDomain);
    }

    method UpdateParams(env: Env, sender: Address, params: Params) returns (r: Result<()>)
      modifies k
      ensures Refines(r, Ledger.UpdateParams(env, old(k.State()), sender, params), old(k.State()), k.State())
    {
      hide ValidParams;
      var valid := ValidateParams(params);
      if !valid {
        return Err(InvalidParams);
      }
      if sender != env.authority {
        return Err(Unauthorized);
      }
      k.params := params;
      return Ok(());
    }
  }
}
