/** Time differences, accrual over a duration, and what a settlement may transfer. */
module Accrual {
  import opened Coins
  import opened Types
  import opened Reservations

  const NANOS_PER_SECOND := 1_000_000_000
  const MAX_DURATION := 0x7FFF_FFFF_FFFF_FFFF
  const MIN_DURATION := -0x8000_0000_0000_0000
  const MAX_DURATION_SECONDS := 100 * 365 * 24 * 60 * 60

  /** Difference of two times as a 64-bit nanosecond count; it saturates. */
  function Sub(later: Time, earlier: Time): int {
    if later - earlier > MAX_DURATION then MAX_DURATION
    else if later - earlier < MIN_DURATION then MIN_DURATION
    else later - earlier
  }

  /** Whole seconds, truncated toward zero. */
  function Seconds(duration: int): int {
    if duration >= 0 then duration / NANOS_PER_SECOND else -((-duration) / NANOS_PER_SECOND)
  }

  /** Saturation never hides an overflow and never touches a gap that is not one. */
  lemma SaturationIsHarmless(later: Time, earlier: Time)
    ensures Sub(later, earlier) > 0 <==> later > earlier
    ensures Sub(later, earlier) < 0 <==> later < earlier
    ensures later >= earlier ==>
              (Seconds(Sub(later, earlier)) > MAX_DURATION_SECONDS <==>
               (later - earlier) / NANOS_PER_SECOND > MAX_DURATION_SECONDS)
    ensures later >= earlier && Seconds(Sub(later, earlier)) <= MAX_DURATION_SECONDS ==>
              Seconds(Sub(later, earlier)) == (later - earlier) / NANOS_PER_SECOND
  {
  }

  function Divisor(unit: Unit): nat {
    match unit
    case PerHour => 3600
    case PerDay => 86400
    case UnitUnspecified => 0
  }

  /** The per-second rate of a base price: refused unless the division is exact and not zero. */
  function PricePerSecond(sku: Sku): (r: Option<Coin>)
    ensures r.Some? <==> sku.basePrice.amount > 0 && ((sku.unit == PerHour && sku.basePrice.amount % 3600 == 0) ||
                                                      (sku.unit == PerDay && sku.basePrice.amount % 86400 == 0))
    ensures r.Some? ==> r.value.denom == sku.basePrice.denom && r.value.amount > 0 &&
                        r.value.amount * (if sku.unit == PerHour then 3600 else 86400) == sku.basePrice.amount
  {
    var n := Divisor(sku.unit);
    if n == 0 || sku.basePrice.amount / n == 0 || sku.basePrice.amount % n != 0 then None
    else Some(Coin(sku.basePrice.denom, sku.basePrice.amount / n))
  }

  /** Accrual is refused exactly for a lease with items whose gap exceeds the maximum. */
  predicate Overflows(items: seq<LeaseItem>, duration: int) {
    items != [] && Seconds(duration) > MAX_DURATION_SECONDS
  }

  function BilledSeconds(duration: int): nat {
    if Seconds(duration) < 0 then 0 else Seconds(duration)
  }

  function Accrued(items: seq<LeaseItem>, duration: int): Coins {
    Scale(Rates(items), BilledSeconds(duration))
  }

  method CalculateAccruedAmount(price: Coin, quantity: nat, duration: int) returns (r: Result<Coin>)
    ensures r.Err? <==> Seconds(duration) > MAX_DURATION_SECONDS
    ensures r.Err? ==> r.error == AccrualOverflow
    ensures r.Ok? ==> r.value == Coin(price.denom, price.amount * quantity * BilledSeconds(duration))
  {
    var seconds := Seconds(duration);
    if seconds < 0 {
      return Ok(Coin(price.denom, 0));
    }
    if seconds > MAX_DURATION_SECONDS {
      return Err(AccrualOverflow);
    }
    return Ok(Coin(price.denom, price.amount * quantity * seconds));
  }

  function ItemAccrual(it: LeaseItem, duration: int): Coin {
    Coin(it.lockedPrice.denom, it.lockedPrice.amount * it.quantity * BilledSeconds(duration))
  }

  lemma AccruedNext(items: seq<LeaseItem>, i: nat, duration: int)
    requires i < |items|
    ensures Accrued(items[..i + 1], duration) ==
            if ItemAccrual(items[i], duration).amount > 0
            then Add(Accrued(items[..i], duration), Single(ItemAccrual(items[i], duration)))
            else Accrued(items[..i], duration)
  {
    var it := items[i];
    assert items[..i] + [it] == items[..i + 1];
    RatesSnoc(items[..i], it);
    ScaleAdd(Rates(items[..i]), Single(ItemRate(it)), BilledSeconds(duration));
    ScaleSingle(ItemRate(it), BilledSeconds(duration));
    AddNothing(Accrued(items[..i], duration));
  }

  method CalculateTotalAccruedForLease(items: seq<LeaseItem>, duration: int) returns (r: Result<Coins>)
    ensures r.Err? <==> Overflows(items, duration)
    ensures r.Err? ==> r.error == AccrualOverflow
    ensures r.Ok? ==> r.value == Accrued(items, duration)
  {
    var totals: Coins := map[];
    for i := 0 to |items|
      invariant i > 0 ==> Seconds(duration) <= MAX_DURATION_SECONDS
      invariant totals == Accrued(items[..i], duration)
    {
      var it := items[i];
      var accrued :- CalculateAccruedAmount(it.lockedPrice, it.quantity, duration);
      AccruedNext(items, i, duration);
      if accrued.amount > 0 {
        totals := Add(totals, Single(accrued));
      }
    }
    assert items[..|items|] == items;
    return Ok(totals);
  }

  /** The denominations of the items, each once. */
  method LeaseItemDenoms(items: seq<LeaseItem>) returns (denoms: seq<string>)
    ensures forall d :: d in denoms <==> d in Denoms(items)
    ensures forall i, j :: 0 <= i < j < |denoms| ==> denoms[i] != denoms[j]
  {
    var seen: set<string> := {};
    denoms := [];
    for i := 0 to |items|
      invariant seen == Denoms(items[..i])
      invariant forall d :: d in denoms <==> d in seen
      invariant forall i, j :: 0 <= i < j < |denoms| ==> denoms[i] != denoms[j]
    {
      var d := items[i].lockedPrice.denom;
      assert items[..i + 1] == items[..i] + [items[i]];
      assert Denoms(items[..i + 1]) == Denoms(items[..i]) + {d};
      if d !in seen {
        seen := seen + {d};
        denoms := denoms + [d];
      }
    }
    assert items[..|items|] == items;
  }

  method CalculateTransferAmounts(accrued: Coins, available: Coins) returns (r: Coins)
    ensures r == Meet(accrued, available)
  {
    r := map[];
    var todo := accrued.Keys;
    while todo != {}
      invariant todo <= accrued.Keys
      invariant forall d :: AmountOf(r, d) ==
                            if d in accrued && d !in todo then AmountOf(Meet(accrued, available), d) else 0
      decreases |todo|
    {
      var d :| d in todo;
      var balance := AmountOf(available, d);
      var transfer := accrued[d];
      if balance < accrued[d] {
        transfer := balance;
      }
      if transfer > 0 {
        r := Add(r, Single(Coin(d, transfer)));
      }
      todo := todo - {d};
    }
    CoinsEqual(r, Meet(accrued, available));
  }
}
