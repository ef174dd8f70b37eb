/** Credit reservations.  The functions state what each amount is, denomination by
    denomination; the methods are the accumulator loops that compute it. */
module Reservations {
  import opened Coins
  import opened Types

  /** What one item costs per second. */
  function ItemRate(it: LeaseItem): Coin {
    Coin(it.lockedPrice.denom, it.lockedPrice.amount * it.quantity)
  }

  /** Total price per second of the items priced in `d`. */
  function Rate(items: seq<LeaseItem>, d: string): nat {
    if items == [] then 0
    else Rate(items[..|items| - 1], d) + AmountOf(Single(ItemRate(items[|items| - 1])), d)
  }

  function Denoms(items: seq<LeaseItem>): set<string> {
    set it | it in items :: it.lockedPrice.denom
  }

  lemma {:induction false} RateNeedsDenom(items: seq<LeaseItem>, d: string)
    requires Rate(items, d) > 0
    ensures d in Denoms(items)
  {
    var n := |items| - 1;
    if items[n].lockedPrice.denom != d {
      assert AmountOf(Single(ItemRate(items[n])), d) == 0;
      RateNeedsDenom(items[..n], d);
      var it :| it in items[..n] && it.lockedPrice.denom == d;
      assert it in items;
    } else {
      assert items[n] in items;
    }
  }

  function Rates(items: seq<LeaseItem>): (r: Coins)
    ensures forall d :: AmountOf(r, d) == Rate(items, d)
  {
    var r: Coins := map d | d in Denoms(items) && Rate(items, d) > 0 :: Rate(items, d);
    assert forall d :: AmountOf(r, d) == Rate(items, d) by {
      forall d ensures AmountOf(r, d) == Rate(items, d) {
        if Rate(items, d) > 0 { RateNeedsDenom(items, d); }
      }
    }
    r
  }

  lemma {:induction false} RateSnoc(items: seq<LeaseItem>, it: LeaseItem, d: string)
    ensures Rate(items + [it], d) == Rate(items, d) + AmountOf(Single(ItemRate(it)), d)
  {
    assert (items + [it])[..|items|] == items;
  }

  lemma {:induction false} RatesSnoc(items: seq<LeaseItem>, it: LeaseItem)
    ensures Rates(items + [it]) == Add(Rates(items), Single(ItemRate(it)))
  {
    forall d ensures AmountOf(Rates(items + [it]), d) == AmountOf(Add(Rates(items), Single(ItemRate(it))), d) {
      RateSnoc(items, it, d);
    }
    CoinsEqual(Rates(items + [it]), Add(Rates(items), Single(ItemRate(it))));
  }

  /** The duration a lease's reservation covers: the one stored at creation, or the current
      parameter for a legacy lease that stored none. */
  function ReservedDuration(l: Lease, minLeaseDuration: nat): nat {
    if l.minLeaseDurationAtCreation == 0 then minLeaseDuration else l.minLeaseDurationAtCreation
  }

  function Reservation(l: Lease, minLeaseDuration: nat): Coins {
    Scale(Rates(l.items), ReservedDuration(l, minLeaseDuration))
  }

  /** Denominations in some order, as a loop over a coin set meets them. */
  method GetAvailableCredit(balance: Coins, reserved: Coins) returns (available: Coins)
    ensures available == Monus(balance, reserved)
  {
    if reserved == NO_COINS {
      CoinsEqual(balance, Monus(balance, reserved));
      return balance;
    }
    available := map[];
    var todo := balance.Keys;
    while todo != {}
      invariant todo <= balance.Keys
      invariant forall d :: AmountOf(available, d) ==
                            if d in balance && d !in todo then AmountOf(Monus(balance, reserved), d) else 0
      decreases |todo|
    {
      var d :| d in todo;
      if balance[d] > AmountOf(reserved, d) {
        available := Add(available, Single(Coin(d, balance[d] - AmountOf(reserved, d))));
      }
      todo := todo - {d};
    }
    CoinsEqual(available, Monus(balance, reserved));
  }

  method SubtractReservation(reserved: Coins, toSubtract: Coins) returns (r: Coins)
    ensures r == Monus(reserved, toSubtract)
  {
    if reserved == NO_COINS {
      return NO_COINS;
    }
    r := map[];
    var todo := reserved.Keys;
    while todo != {}
      invariant todo <= reserved.Keys
      invariant forall d :: AmountOf(r, d) ==
                            if d in reserved && d !in todo then AmountOf(Monus(reserved, toSubtract), d) else 0
      decreases |todo|
    {
      var d :| d in todo;
      if reserved[d] > AmountOf(toSubtract, d) {
        r := Add(r, Single(Coin(d, reserved[d] - AmountOf(toSubtract, d))));
      }
      todo := todo - {d};
    }
    CoinsEqual(r, Monus(reserved, toSubtract));
  }

  method CalculateLeaseReservationFromRates(rates: Coins, minLeaseDuration: nat) returns (r: Coins)
    ensures r == Scale(rates, minLeaseDuration)
  {
    r := map[];
    if rates == NO_COINS || minLeaseDuration == 0 {
      ScaleNothing(minLeaseDuration);
      return;
    }
    var todo := rates.Keys;
    while todo != {}
      invariant todo <= rates.Keys
      invariant forall d :: AmountOf(r, d) == if d in rates && d !in todo then rates[d] * minLeaseDuration else 0
      decreases |todo|
    {
      var d :| d in todo;
      r := Add(r, Single(Coin(d, rates[d] * minLeaseDuration)));
      todo := todo - {d};
    }
    forall d ensures AmountOf(r, d) == AmountOf(Scale(rates, minLeaseDuration), d) {
      ScaleAmount(rates, minLeaseDuration, d);
    }
    CoinsEqual(r, Scale(rates, minLeaseDuration));
  }

  lemma RatesNext(items: seq<LeaseItem>, i: nat)
    requires i < |items|
    ensures Rates(items[..i + 1]) == Add(Rates(items[..i]), Single(ItemRate(items[i])))
  {
    hide Rates, Add;
    RatesSnoc(items[..i], items[i]);
    assert items[..i] + [items[i]] == items[..i + 1];
  }

  lemma NoItems(minLeaseDuration: nat)
    ensures Rates([]) == NO_COINS && Scale(NO_COINS, minLeaseDuration) == NO_COINS
  {
    CoinsEqual(Rates([]), NO_COINS);
  }

  method CalculateLeaseReservation(items: seq<LeaseItem>, minLeaseDuration: nat) returns (r: Coins)
    ensures r == Scale(Rates(items), minLeaseDuration)
  {
    NoItems(minLeaseDuration);
    if |items| == 0 || minLeaseDuration == 0 {
      hide Rates;
      return NO_COINS;
    }
    hide Rates, Scale, Add;
    var totals: Coins := map[];
    assert items[..0] == [];
    for i := 0 to |items|
      invariant totals == Rates(items[..i])
    {
      RatesNext(items, i);
      var itemRate := Coin(items[i].lockedPrice.denom, items[i].lockedPrice.amount * items[i].quantity);
      totals := Add(totals, Single(itemRate));
    }
    assert items[..|items|] == items;
    r := CalculateLeaseReservationFromRates(totals, minLeaseDuration);
  }

  /** The denominations a release would overdraw, with the missing amount. */
  method CheckReservationRelease(reserved: Coins, toRelease: Coins) returns (underflows: map<string, nat>)
    ensures forall d :: d in underflows <==> AmountOf(toRelease, d) > AmountOf(reserved, d)
    ensures forall d :: d in underflows ==> underflows[d] == AmountOf(toRelease, d) - AmountOf(reserved, d)
    ensures underflows == map[] <==> Covers(reserved, toRelease)
  {
    underflows := map[];
    var todo := toRelease.Keys;
    while todo != {}
      invariant todo <= toRelease.Keys
      invariant forall d :: d in underflows <==> d !in todo && AmountOf(toRelease, d) > AmountOf(reserved, d)
      invariant forall d :: d in underflows ==> underflows[d] == AmountOf(toRelease, d) - AmountOf(reserved, d)
      decreases |todo|
    {
      var d :| d in todo;
      if toRelease[d] > AmountOf(reserved, d) {
        underflows := underflows[d := toRelease[d] - AmountOf(reserved, d)];
      }
      todo := todo - {d};
    }
    if Covers(reserved, toRelease) {
      assert underflows.Keys == {};
    } else {
      var d :| d in toRelease && AmountOf(reserved, d) < toRelease[d];
      assert d in underflows;
    }
  }
}
