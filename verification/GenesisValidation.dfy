/** The loops of genesis validation, proved against what they are meant to accept. */
module GenesisValidation {
  import opened Coins
  import opened Types
  import opened Reservations
  import opened Names
  import opened Ledger
  import opened Invariants
  import opened Structure
  import opened Genesis
  import opened Messages
  import UuidV7

  // ---------------------------------------------------------------- tallies per tenant

  function ReservedBy(expected: map<Address, Coins>, t: Address): Coins {
    if t in expected then expected[t] else NO_COINS
  }

  function CountOf(counts: map<Address, nat>, t: Address): nat {
    if t in counts then counts[t] else 0
  }

  lemma SumListNext(ls: seq<Lease>, i: nat, w: Lease -> nat)
    requires i < |ls|
    ensures SumList(ls[..i + 1], w) == SumList(ls[..i], w) + w(ls[i])
  {
    assert ls[..i + 1][..i] == ls[..i];
  }

  lemma {:induction false} SumListPositive(ls: seq<Lease>, w: Lease -> nat)
    ensures SumList(ls, w) > 0 <==> exists i :: 0 <= i < |ls| && w(ls[i]) > 0
    decreases |ls|
  {
    if ls != [] {
      var n := |ls| - 1;
      SumListPositive(ls[..n], w);
      if SumList(ls[..n], w) > 0 {
        var i :| 0 <= i < n && w(ls[..n][i]) > 0;
        assert w(ls[i]) > 0;
      }
      assert forall i :: 0 <= i < n ==> ls[..n][i] == ls[i];
    }
  }

  /** The reservation map holds the sums over the leases, for every tenant. */
  ghost predicate Tallies(expected: map<Address, Coins>, ls: seq<Lease>, min: nat) {
    forall t, d :: AmountOf(ReservedBy(expected, t), d) == SumList(ls, ReservedOf(t, d, min))
  }

  lemma TalliesNext(expected: map<Address, Coins>, ls: seq<Lease>, i: nat, min: nat)
    requires i < |ls| && Tallies(expected, ls[..i], min)
    ensures var l := ls[i];
            if Live(l) then Tallies(expected[l.tenant := Add(ReservedBy(expected, l.tenant), Reservation(l, min))], ls[..i + 1], min)
            else Tallies(expected, ls[..i + 1], min)
  {
    hide Reservation, SumList;
    var l := ls[i];
    var expected' := if Live(l) then expected[l.tenant := Add(ReservedBy(expected, l.tenant), Reservation(l, min))] else expected;
    forall t, d ensures AmountOf(ReservedBy(expected', t), d) == SumList(ls[..i + 1], ReservedOf(t, d, min)) {
      SumListNext(ls, i, ReservedOf(t, d, min));
      assert AmountOf(ReservedBy(expected, t), d) == SumList(ls[..i], ReservedOf(t, d, min));
    }
  }

  lemma TalliesNone(min: nat)
    ensures Tallies(map[], [], min)
  {
  }

  method CalculateExpectedReservationsByTenant(ls: seq<Lease>, min: nat) returns (expected: map<Address, Coins>)
    ensures Tallies(expected, ls, min)
    ensures forall t :: t in expected ==> exists i :: 0 <= i < |ls| && Live(ls[i]) && ls[i].tenant == t
  {
    hide Tallies, Reservation, Add;
    expected := map[];
    TalliesNone(min);
    assert ls[..0] == [];
    for i := 0 to |ls|
      invariant Tallies(expected, ls[..i], min)
      invariant forall t :: t in expected ==> exists j :: 0 <= j < i && Live(ls[j]) && ls[j].tenant == t
    {
      var l := ls[i];
      TalliesNext(expected, ls, i, min);
      if l.state == Pending || l.state == Active {
        var duration := l.minLeaseDurationAtCreation;
        if duration == 0 {
          duration := min;
        }
        var reservation := CalculateLeaseReservation(l.items, duration);
        ReservationIs(l, min, reservation);
        AddNothing(reservation);
        if l.tenant in expected {
          expected := expected[l.tenant := Add(expected[l.tenant], reservation)];
        } else {
          expected := expected[l.tenant := reservation];
        }
      }
    }
    assert ls[..|ls|] == ls;
  }

  lemma ReservationIs(l: Lease, min: nat, amount: Coins)
    requires amount == Scale(Rates(l.items), ReservedDuration(l, min))
    ensures amount == Reservation(l, min)
  {
  }

  /** The two count maps hold the true counts, for every tenant. */
  ghost predicate CountsTrue(active: map<Address, nat>, pending: map<Address, nat>, ls: seq<Lease>) {
    forall t :: CountOf(active, t) == SumList(ls, ActiveOf(t)) && CountOf(pending, t) == SumList(ls, PendingOf(t))
  }

  lemma CountsTrueNext(active: map<Address, nat>, pending: map<Address, nat>, ls: seq<Lease>, i: nat)
    requires i < |ls| && CountsTrue(active, pending, ls[..i])
    ensures var l := ls[i];
            if l.state == Active then CountsTrue(active[l.tenant := CountOf(active, l.tenant) + 1], pending, ls[..i + 1])
            else if l.state == Pending then CountsTrue(active, pending[l.tenant := CountOf(pending, l.tenant) + 1], ls[..i + 1])
            else CountsTrue(active, pending, ls[..i + 1])
  {
    hide SumList;
    forall t ensures SumList(ls[..i + 1], ActiveOf(t)) == SumList(ls[..i], ActiveOf(t)) + ActiveOf(t)(ls[i])
                  && SumList(ls[..i + 1], PendingOf(t)) == SumList(ls[..i], PendingOf(t)) + PendingOf(t)(ls[i]) {
      SumListNext(ls, i, ActiveOf(t));
      SumListNext(ls, i, PendingOf(t));
    }
  }

  method CountLeases(ls: seq<Lease>) returns (active: map<Address, nat>, pending: map<Address, nat>)
    ensures CountsTrue(active, pending, ls)
  {
    active, pending := map[], map[];
    assert ls[..0] == [];
    assert CountsTrue(active, pending, []);
    hide CountsTrue;
    for i := 0 to |ls|
      invariant CountsTrue(active, pending, ls[..i])
    {
      CountsTrueNext(active, pending, ls, i);
      if ls[i].state == Active {
        active := active[ls[i].tenant := CountOf(active, ls[i].tenant) + 1];
      } else if ls[i].state == Pending {
        pending := pending[ls[i].tenant := CountOf(pending, ls[i].tenant) + 1];
      }
    }
    assert ls[..|ls|] == ls;
  }

  // ---------------------------------------------------------------- cross-checks

  ghost predicate HasAccount(g: GenesisState, t: Address) {
    exists j :: 0 <= j < |g.creditAccounts| && g.creditAccounts[j].tenant == t
  }

  /** An account agrees with the leases exactly when it agrees with the tallies. */
  lemma AgreesByTallies(g: GenesisState, ca: CreditAccount, expected: map<Address, Coins>, active: map<Address, nat>, pending: map<Address, nat>)
    requires Tallies(expected, g.leases, g.params.minLeaseDuration) && CountsTrue(active, pending, g.leases)
    ensures AccountAgrees(g, ca) <==>
            ca.reservedAmounts == ReservedBy(expected, ca.tenant) &&
            ca.activeLeaseCount == CountOf(active, ca.tenant) && ca.pendingLeaseCount == CountOf(pending, ca.tenant)
  {
    hide SumList, ReservedOf, ActiveOf, PendingOf, AmountOf;
    assert forall d :: AmountOf(ReservedBy(expected, ca.tenant), d) == SumList(g.leases, ReservedOf(ca.tenant, d, g.params.minLeaseDuration));
    if AccountAgrees(g, ca) {
      CoinsEqual(ca.reservedAmounts, ReservedBy(expected, ca.tenant));
    }
  }

  /** Some tenant has a reservation and no account exactly when some lease does. */
  lemma OrphansByTallies(g: GenesisState, expected: map<Address, Coins>)
    requires Tallies(expected, g.leases, g.params.minLeaseDuration)
    ensures (forall t :: t in expected && expected[t] != NO_COINS ==> HasAccount(g, t)) <==>
            (forall i :: 0 <= i < |g.leases| && Live(g.leases[i]) && Reservation(g.leases[i], g.params.minLeaseDuration) != NO_COINS ==>
               HasAccount(g, g.leases[i].tenant))
  {
    hide SumList, Reservation, HasAccount, Tallies;
    var min := g.params.minLeaseDuration;
    forall t ensures ReservedBy(expected, t) != NO_COINS <==>
                     exists i :: 0 <= i < |g.leases| && g.leases[i].tenant == t && Live(g.leases[i]) && Reservation(g.leases[i], min) != NO_COINS {
      TenantReserves(g, expected, t);
    }
    assert forall t :: t in expected ==> ReservedBy(expected, t) == expected[t];
    assert forall t :: ReservedBy(expected, t) != NO_COINS ==> t in expected;
  }

  lemma TenantReserves(g: GenesisState, expected: map<Address, Coins>, t: Address)
    requires Tallies(expected, g.leases, g.params.minLeaseDuration)
    ensures var min := g.params.minLeaseDuration;
            ReservedBy(expected, t) != NO_COINS <==>
            exists i :: 0 <= i < |g.leases| && g.leases[i].tenant == t && Live(g.leases[i]) && Reservation(g.leases[i], min) != NO_COINS
  {
    hide SumList, Reservation;
    var min := g.params.minLeaseDuration;
    var c := ReservedBy(expected, t);
    if c != NO_COINS {
      var d :| d in c;
      var w := ReservedOf(t, d, min);
      assert AmountOf(c, d) == SumList(g.leases, w);
      SumListPositive(g.leases, w);
      var i :| 0 <= i < |g.leases| && w(g.leases[i]) > 0;
      assert AmountOf(Reservation(g.leases[i], min), d) > 0;
    }
    if i :| 0 <= i < |g.leases| && g.leases[i].tenant == t && Live(g.leases[i]) && Reservation(g.leases[i], min) != NO_COINS {
      var d :| d in Reservation(g.leases[i], min);
      var w := ReservedOf(t, d, min);
      assert w(g.leases[i]) > 0;
      SumListPositive(g.leases, w);
      assert AmountOf(c, d) == SumList(g.leases, w);
    }
  }

  /** Reservations, tenants without an account, counters and the sequence. */
  method CrossCheck(g: GenesisState) returns (ok: bool)
    ensures ok <==> CrossChecked(g)
  {
    hide Tallies, CountsTrue, AccountAgrees, Reservation, HasAccount;
    var expected := CalculateExpectedReservationsByTenant(g.leases, g.params.minLeaseDuration);
    var active, pending := CountLeases(g.leases);
    CrossCheckedBy(g, expected, active, pending);
    var accounts := CheckAccounts(g, expected, active, pending);
    if !accounts {
      return false;
    }
    var orphans := FindOrphan(g, expected);
    if orphans {
      return false;
    }
    return |g.leases| <= g.leaseSequence;
  }

  ghost predicate MatchesTallies(ca: CreditAccount, expected: map<Address, Coins>, active: map<Address, nat>, pending: map<Address, nat>) {
    ca.reservedAmounts == ReservedBy(expected, ca.tenant) &&
    ca.activeLeaseCount == CountOf(active, ca.tenant) && ca.pendingLeaseCount == CountOf(pending, ca.tenant)
  }

  lemma CrossCheckedBy(g: GenesisState, expected: map<Address, Coins>, active: map<Address, nat>, pending: map<Address, nat>)
    requires Tallies(expected, g.leases, g.params.minLeaseDuration) && CountsTrue(active, pending, g.leases)
    ensures CrossChecked(g) <==>
            && (forall i :: 0 <= i < |g.creditAccounts| ==> MatchesTallies(g.creditAccounts[i], expected, active, pending))
            && (forall t :: t in expected && expected[t] != NO_COINS ==> HasAccount(g, t))
            && |g.leases| <= g.leaseSequence
  {
    OrphansByTallies(g, expected);
    forall i | 0 <= i < |g.creditAccounts|
      ensures AccountAgrees(g, g.creditAccounts[i]) <==> MatchesTallies(g.creditAccounts[i], expected, active, pending)
    {
      hide Tallies, CountsTrue, AccountAgrees;
      AgreesByTallies(g, g.creditAccounts[i], expected, active, pending);
    }
    assert forall t :: HasAccount(g, t) <==> exists j :: 0 <= j < |g.creditAccounts| && g.creditAccounts[j].tenant == t;
    hide Tallies, CountsTrue, AccountAgrees, MatchesTallies, Reservation, HasAccount;
  }

  method CheckAccounts(g: GenesisState, expected: map<Address, Coins>, active: map<Address, nat>, pending: map<Address, nat>) returns (ok: bool)
    ensures ok <==> forall i :: 0 <= i < |g.creditAccounts| ==> MatchesTallies(g.creditAccounts[i], expected, active, pending)
  {
    for i := 0 to |g.creditAccounts|
      invariant forall j :: 0 <= j < i ==> MatchesTallies(g.creditAccounts[j], expected, active, pending)
    {
      var ca := g.creditAccounts[i];
      if ca.reservedAmounts != ReservedBy(expected, ca.tenant) {
        return false;
      }
      if ca.activeLeaseCount != CountOf(active, ca.tenant) || ca.pendingLeaseCount != CountOf(pending, ca.tenant) {
        return false;
      }
    }
    return true;
  }

  /** Whether a tenant with reservations has no account. */
  method FindOrphan(g: GenesisState, expected: map<Address, Coins>) returns (found: bool)
    ensures !found <==> forall t :: t in expected && expected[t] != NO_COINS ==> HasAccount(g, t)
  {
    var seenTenants: set<Address> := {};
    for i := 0 to |g.creditAccounts|
      invariant forall t :: t in seenTenants <==> exists j :: 0 <= j < i && g.creditAccounts[j].tenant == t
    {
      seenTenants := seenTenants + {g.creditAccounts[i].tenant};
    }
    assert forall t :: t in seenTenants <==> HasAccount(g, t);
    hide HasAccount;
    var todo := expected.Keys;
    while todo != {}
      invariant todo <= expected.Keys
      invariant forall t :: t in expected && t !in todo && expected[t] != NO_COINS ==> HasAccount(g, t)
      decreases |todo|
    {
      var t :| t in todo;
      if expected[t] != NO_COINS && t !in seenTenants {
        return true;
      }
      todo := todo - {t};
    }
    return false;
  }

  // ---------------------------------------------------------------- records

  /** The checks on an item besides its domain. */
  predicate Priced(it: LeaseItem) {
    UuidV7.IsValidUUIDv7(it.skuUuid) && it.quantity > 0 && it.lockedPrice.amount > 0 && ValidDenom(it.lockedPrice.denom)
  }

  method ValidateItems(items: seq<LeaseItem>) returns (ok: bool, hasServiceName: nat)
    ensures ok ==> forall i :: 0 <= i < |items| ==> Priced(items[i])
    ensures !ok ==> exists i :: 0 <= i < |items| && !ItemOk(items[i])
    ensures ok ==> (hasServiceName == 0 <==> forall i :: 0 <= i < |items| ==> items[i].serviceName == "")
    ensures ok ==> (hasServiceName == |items| <==> forall i :: 0 <= i < |items| ==> items[i].serviceName != "")
  {
    hide UuidV7.IsValidUUIDv7, ValidFqdn, ValidDenom;
    hasServiceName := 0;
    for i := 0 to |items|
      invariant forall j :: 0 <= j < i ==> Priced(items[j])
      invariant hasServiceName <= i
      invariant hasServiceName == 0 <==> forall j :: 0 <= j < i ==> items[j].serviceName == ""
      invariant hasServiceName == i <==> forall j :: 0 <= j < i ==> items[j].serviceName != ""
    {
      if !UuidV7.IsValidUUIDv7(items[i].skuUuid) || items[i].quantity == 0 {
        return false, hasServiceName;
      }
      if !ValidDenom(items[i].lockedPrice.denom) || items[i].lockedPrice.amount == 0 {
        return false, hasServiceName;
      }
      if items[i].serviceName != "" {
        hasServiceName := hasServiceName + 1;
      }
    }
    return true, hasServiceName;
  }

  method ValidateNames(items: seq<LeaseItem>) returns (ok: bool)
    ensures ok <==> (forall i :: 0 <= i < |items| ==> ValidLabel(items[i].serviceName)) &&
                    (forall i, j :: 0 <= i < j < |items| ==> items[i].serviceName != items[j].serviceName)
  {
    hide ValidLabel;
    var seen: set<string> := {};
    for i := 0 to |items|
      invariant forall j :: 0 <= j < i ==> items[j].serviceName in seen && ValidLabel(items[j].serviceName)
      invariant forall s :: s in seen ==> exists j :: 0 <= j < i && items[j].serviceName == s
      invariant forall j, k :: 0 <= j < k < i ==> items[j].serviceName != items[k].serviceName
    {
      var valid := IsValidDNSLabel(items[i].serviceName);
      if !valid || items[i].serviceName in seen {
        return false;
      }
      seen := seen + {items[i].serviceName};
    }
    return true;
  }

  method ValidateSkus(items: seq<LeaseItem>) returns (ok: bool)
    ensures ok <==> forall i, j :: 0 <= i < j < |items| ==> items[i].skuUuid != items[j].skuUuid
  {
    var seen: set<string> := {};
    for i := 0 to |items|
      invariant forall j :: 0 <= j < i ==> items[j].skuUuid in seen
      invariant forall s :: s in seen ==> exists j :: 0 <= j < i && items[j].skuUuid == s
      invariant forall j, k :: 0 <= j < k < i ==> items[j].skuUuid != items[k].skuUuid
    {
      if items[i].skuUuid in seen {
        return false;
      }
      seen := seen + {items[i].skuUuid};
    }
    return true;
  }

  /** How many items share a service name with item `i`. */
  method IsAddressable(items: seq<LeaseItem>, i: nat) returns (ok: bool)
    requires i < |items|
    ensures ok <==> IsOnly(items, items[i].serviceName, i)
  {
    var matches := 0;
    for j := 0 to |items|
      invariant matches == 0 <==> forall m :: 0 <= m < j ==> items[m].serviceName != items[i].serviceName
      invariant matches <= 1 <==> forall m, n :: 0 <= m < n < j ==> !(items[m].serviceName == items[i].serviceName && items[n].serviceName == items[i].serviceName)
    {
      if items[j].serviceName == items[i].serviceName {
        matches := matches + 1;
      }
    }
    return matches == 1;
  }

  /** Every domain is valid, outside the reserved suffixes and uniquely addressable. */
  method ValidateDomains(params: Params, items: seq<LeaseItem>) returns (ok: bool)
    ensures ok <==> forall i :: 0 <= i < |items| && items[i].customDomain != "" ==>
                      ValidFqdn(items[i].customDomain) && !Reserved(items[i].customDomain, params.reservedDomainSuffixes) &&
                      IsOnly(items, items[i].serviceName, i)
  {
    hide ValidFqdn, Reserved, IsOnly;
    for i := 0 to |items|
      invariant forall j :: 0 <= j < i && items[j].customDomain != "" ==>
                  ValidFqdn(items[j].customDomain) && !Reserved(items[j].customDomain, params.reservedDomainSuffixes) &&
                  IsOnly(items, items[j].serviceName, j)
    {
      if items[i].customDomain == "" {
        continue;
      }
      var valid := IsValidFQDN(items[i].customDomain);
      if valid.Err? {
        return false;
      }
      var reserved := MatchesReservedSuffix(items[i].customDomain, params.reservedDomainSuffixes);
      if reserved {
        return false;
      }
      var addressable := IsAddressable(items, i);
      if !addressable {
        return false;
      }
    }
    return true;
  }

  method ValidateNaming(items: seq<LeaseItem>, hasServiceName: nat) returns (ok: bool)
    requires items != []
    requires hasServiceName == 0 <==> forall i :: 0 <= i < |items| ==> items[i].serviceName == ""
    requires hasServiceName == |items| <==> forall i :: 0 <= i < |items| ==> items[i].serviceName != ""
    ensures ok <==> NamesOk(items)
  {
    if hasServiceName > 0 && hasServiceName != |items| {
      return false;
    }
    if hasServiceName > 0 {
      ok := ValidateNames(items);
    } else {
      ok := ValidateSkus(items);
    }
  }

  method ValidateLeaseRecord(params: Params, l: Lease) returns (ok: bool)
    ensures ok <==> LeaseValid(params, l)
  {
    hide UuidV7.IsValidUUIDv7, ValidFqdn, Reserved, IsOnly, NamesOk, ValidDenom;
    if !UuidV7.IsValidUUIDv7(l.uuid) || !UuidV7.IsValidUUIDv7(l.providerUuid) || |l.items| == 0 {
      return false;
    }
    var items, hasServiceName := ValidateItems(l.items);
    if !items {
      return false;
    }
    var naming := ValidateNaming(l.items, hasServiceName);
    if !naming {
      return false;
    }
    var domains := ValidateDomains(params, l.items);
    if !domains {
      return false;
    }
    if l.state == Unspecified || |l.metaHash| > MAX_META_HASH_LENGTH {
      return false;
    }
    return !(l.state == Closed && l.closedAt.None?);
  }

  method ValidateLeases(params: Params, ls: seq<Lease>) returns (ok: bool)
    ensures ok <==> DistinctLeases(ls) && forall i :: 0 <= i < |ls| ==> LeaseValid(params, ls[i])
  {
    hide LeaseValid;
    var seen: set<Uuid> := {};
    for i := 0 to |ls|
      invariant forall j :: 0 <= j < i ==> ls[j].uuid in seen && LeaseValid(params, ls[j])
      invariant forall u :: u in seen ==> exists j :: 0 <= j < i && ls[j].uuid == u
      invariant forall j, k :: 0 <= j < k < i ==> ls[j].uuid != ls[k].uuid
    {
      if ls[i].uuid in seen {
        return false;
      }
      seen := seen + {ls[i].uuid};
      var valid := ValidateLeaseRecord(params, ls[i]);
      if !valid {
        return false;
      }
    }
    return true;
  }

  method ValidateAccounts(cas: seq<CreditAccount>) returns (ok: bool)
    ensures ok <==> DistinctAccounts(cas) && forall i :: 0 <= i < |cas| ==> AccountOk(cas[i])
  {
    hide ValidCoins;
    var seen: set<Address> := {};
    for i := 0 to |cas|
      invariant forall j :: 0 <= j < i ==> cas[j].tenant in seen && AccountOk(cas[j])
      invariant forall t :: t in seen ==> exists j :: 0 <= j < i && cas[j].tenant == t
      invariant forall j, k :: 0 <= j < k < i ==> cas[j].tenant != cas[k].tenant
    {
      if cas[i].tenant in seen || cas[i].creditAddress != Credit(cas[i].tenant) {
        return false;
      }
      if !ValidCoins(cas[i].reservedAmounts) {
        return false;
      }
      seen := seen + {cas[i].tenant};
    }
    return true;
  }

  method Validate(g: GenesisState) returns (ok: bool)
    ensures ok <==> Genesis.Valid(g)
  {
    hide ValidParams, DistinctLeases, LeaseValid, DistinctAccounts, CrossChecked, AccountOk;
    var params := ValidateParams(g.params);
    if !params {
      return false;
    }
    var leases := ValidateLeases(g.params, g.leases);
    if !leases {
      return false;
    }
    var accounts := ValidateAccounts(g.creditAccounts);
    if !accounts {
      return false;
    }
    ok := CrossCheck(g);
  }
}
