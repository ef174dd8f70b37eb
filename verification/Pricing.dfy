/** From the catalog's prices per hour and per day to what a lease is charged, with every length
    of time written out. */
module Pricing {
  import opened Coins
  import opened Types
  import opened Reservations
  import opened Accrual
  import opened Ledger
  import opened Invariants
  import opened Lifetime
  import opened Payments
  import opened Structure
  import opened Overrun

  // ---------------------------------------------------------------- locked prices

  /** The same goods at the catalog's prices, whatever their domains. */
  predicate PricedFrom(catalog: Catalog, inputs: seq<LeaseItemInput>, items: seq<LeaseItem>) {
    && |items| == |inputs|
    && forall i :: 0 <= i < |items| ==>
         && items[i].skuUuid == inputs[i].skuUuid && items[i].quantity == inputs[i].quantity
         && inputs[i].skuUuid in catalog.skus && PricedAs(catalog.skus[inputs[i].skuUuid], items[i].lockedPrice)
  }

  /** The price of one unit for a day. */
  function DayPrice(sku: Sku): nat {
    match sku.unit
    case PerHour => 24 * sku.basePrice.amount
    case PerDay => sku.basePrice.amount
    case UnitUnspecified => 0
  }

  /** What an order costs per day in one denomination. */
  function DayPrices(catalog: Catalog, inputs: seq<LeaseItemInput>, d: string): nat {
    if inputs == [] then 0
    else
      var n := |inputs| - 1;
      var sku := inputs[n].skuUuid;
      DayPrices(catalog, inputs[..n], d) +
      if sku in catalog.skus && catalog.skus[sku].basePrice.denom == d then DayPrice(catalog.skus[sku]) * inputs[n].quantity else 0
  }

  lemma QuotedIsPriced(catalog: Catalog, provider: string, inputs: seq<LeaseItemInput>, items: seq<LeaseItem>)
    requires Quoted(catalog, provider, inputs, items)
    ensures PricedFrom(catalog, inputs, items)
  {
    hide PricedAs;
  }

  /** Prices stay locked: later states of a lease cost what the catalog said when it was made. */
  lemma PricesAreLocked(catalog: Catalog, inputs: seq<LeaseItemInput>, l: Lease, l': Lease)
    requires PricedFrom(catalog, inputs, l.items) && Persists(l, l')
    ensures PricedFrom(catalog, inputs, l'.items)
  {
    hide PricedAs;
    assert forall i :: 0 <= i < |l.items| ==> SameGood(l.items[i], l'.items[i]);
  }

  // ---------------------------------------------------------------- an hour and a day

  /** One item over one hour or one day accrues its base price times its quantity. */
  lemma UnitCostsBasePrice(sku: Sku, it: LeaseItem)
    requires PricedAs(sku, it.lockedPrice)
    ensures sku.unit == PerHour ==> ItemAccrual(it, 3_600_000_000_000) == Coin(sku.basePrice.denom, sku.basePrice.amount * it.quantity)
    ensures sku.unit == PerDay ==> ItemAccrual(it, 86_400_000_000_000) == Coin(sku.basePrice.denom, sku.basePrice.amount * it.quantity)
    ensures ItemRate(it).denom == sku.basePrice.denom && ItemRate(it).amount * 86400 == DayPrice(sku) * it.quantity
  {
    var p, q := it.lockedPrice.amount, it.quantity;
    if sku.unit == PerHour {
      Reorder(p, q, 3600);
      assert BilledSeconds(3_600_000_000_000) == 3600;
      assert p * q * 86400 == 24 * (p * q * 3600);
    } else {
      Reorder(p, q, 86400);
      assert BilledSeconds(86_400_000_000_000) == 86400;
    }
  }

  lemma Reorder(a: nat, b: nat, c: nat)
    ensures a * b * c == a * c * b
  {
  }

  lemma {:induction false} RateIsCatalogs(catalog: Catalog, inputs: seq<LeaseItemInput>, items: seq<LeaseItem>, d: string)
    requires PricedFrom(catalog, inputs, items)
    ensures Rate(items, d) * 86400 == DayPrices(catalog, inputs, d)
    decreases |items|
  {
    hide PricedAs, DayPrice, ItemRate;
    if items != [] {
      var n := |items| - 1;
      RateIsCatalogs(catalog, inputs[..n], items[..n], d);
      var sku := catalog.skus[inputs[n].skuUuid];
      UnitCostsBasePrice(sku, items[n]);
      Distribute(Rate(items[..n], d), AmountOf(Single(ItemRate(items[n])), d), 86400);
    }
  }

  // ---------------------------------------------------------------- any length of time

  /** A gap of so many nanoseconds is charged by the whole second; it is refused, or takes all the
      credit, exactly beyond a hundred years of 365 days. */
  lemma AccruedBySecond(items: seq<LeaseItem>, later: Time, earlier: Time, d: string)
    requires earlier <= later
    ensures Overflows(items, Sub(later, earlier)) <==> items != [] && (later - earlier) / 1_000_000_000 > 3_153_600_000
    ensures (later - earlier) / 1_000_000_000 <= 3_153_600_000 ==>
              AmountOf(Accrued(items, Sub(later, earlier)), d) == Rate(items, d) * ((later - earlier) / 1_000_000_000)
  {
    hide Scale, Rates, Rate;
    SaturationIsHarmless(later, earlier);
    ScaleAmount(Rates(items), BilledSeconds(Sub(later, earlier)), d);
  }

  /** A close, a withdrawal or a sweep charges an active lease up to now and a closed one up to its
      closing time, by the whole second. */
  lemma ChargeBySecond(l: Lease, now: Time, d: string)
    requires var end := if l.state == Active then now else if l.closedAt.Some? then l.closedAt.value else l.lastSettledAt;
             (end - l.lastSettledAt) / 1_000_000_000 <= 3_153_600_000
    ensures var end := if l.state == Active then now else if l.closedAt.Some? then l.closedAt.value else l.lastSettledAt;
            AmountOf(Charge(l, now), d) == if end > l.lastSettledAt then Rate(l.items, d) * ((end - l.lastSettledAt) / 1_000_000_000) else 0
  {
    hide Rate, Accrued;
    var end := if l.state == Active then now else if l.closedAt.Some? then l.closedAt.value else l.lastSettledAt;
    if end > l.lastSettledAt {
      AccruedBySecond(l.items, end, l.lastSettledAt, d);
    }
  }

  function DaysPrice(catalog: Catalog, inputs: seq<LeaseItemInput>, days: nat, d: string): nat { days * DayPrices(catalog, inputs, d) }

  lemma DaysAre(rate: nat, days: nat)
    ensures days * 86_400_000_000_000 / 1_000_000_000 == days * 86400
    ensures rate * (days * 86400) == days * (rate * 86400)
  {
    assert days * 86_400_000_000_000 == days * 86400 * 1_000_000_000;
    Reorder(rate, days, 86400);
  }

  lemma DaysCharge(l: Lease, now: Time, catalog: Catalog, inputs: seq<LeaseItemInput>, days: nat, d: string)
    requires l.state == Active && now == l.lastSettledAt + days * 86_400_000_000_000 && days <= 36500 && PricedFrom(catalog, inputs, l.items)
    ensures AmountOf(Charge(l, now), d) == DaysPrice(catalog, inputs, days, d)
  {
    hide Rate, PricedFrom, DayPrices, Charge;
    DaysAre(Rate(l.items, d), days);
    RateIsCatalogs(catalog, inputs, l.items, d);
    assert now - l.lastSettledAt == days * 86_400_000_000_000;
    ChargeBySecond(l, now, d);
  }

  /** After so many days since its last settlement a lease owes that many times the daily price of
      what was ordered, and settling it takes that from the credit, or all there is. */
  lemma DaysCostCatalogPrice(op: Op, env: Env, st: Store, u: Uuid, catalog: Catalog, inputs: seq<LeaseItemInput>, days: nat, d: string)
    requires Batch(op, env, st, [u]).Ok? && u in st.leases && st.leases[u].state == Active
    requires Indexed(st) && Settles(op, env, st, [u])
    requires PricedFrom(catalog, inputs, st.leases[u].items)
    requires env.now == st.leases[u].lastSettledAt + days * 86_400_000_000_000 && days <= 36500
    ensures var credit := Credit(st.leases[u].tenant);
            Holding(Batch(op, env, st, [u]).value.st.bank, credit, d) ==
            Holding(st.bank, credit, d) - Min(Holding(st.bank, credit, d), DaysPrice(catalog, inputs, days, d))
  {
    var l := st.leases[u];
    hide Indexed, Settles, Batch, Holding, PricedFrom, DaysPrice, Charge, ChargeSum;
    DaysCharge(l, env.now, catalog, inputs, days, d);
    ChargeOfOne(st.leases, u, env.now, d);
    SettlesDraws(op, env, st, [u], l.tenant, d);
  }
}
