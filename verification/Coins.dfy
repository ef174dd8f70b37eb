/** Multi-denomination amounts.  A coin set holds only positive amounts, so two coin sets
    are equal exactly when they agree on the amount of every denomination. */
module Coins {

  datatype Coin = Coin(denom: string, amount: nat)

  type Coins = c: map<string, nat> | forall d :: d in c ==> c[d] > 0

  const NO_COINS: Coins := map[]

  predicate IsAlpha(c: char) { 'a' <= c <= 'z' || 'A' <= c <= 'Z' }

  predicate IsDenomChar(c: char) { IsAlpha(c) || '0' <= c <= '9' || c in "/:._-" }

  /** A name the bank accepts: a letter, then 2 to 127 letters, digits or separators. */
  predicate ValidDenom(d: string) {
    3 <= |d| <= 128 && IsAlpha(d[0]) && forall i :: 0 <= i < |d| ==> IsDenomChar(d[i])
  }

  predicate ValidCoins(c: Coins) { forall d :: d in c ==> ValidDenom(d) }

  function AmountOf(c: Coins, d: string): (n: nat)
    ensures n > 0 <==> d in c
  {
    if d in c then c[d] else 0
  }

  function Single(coin: Coin): Coins {
    if coin.amount == 0 then map[] else map[coin.denom := coin.amount]
  }

  function Add(a: Coins, b: Coins): (r: Coins)
    ensures forall d :: AmountOf(r, d) == AmountOf(a, d) + AmountOf(b, d)
  {
    map d | d in a.Keys + b.Keys :: AmountOf(a, d) + AmountOf(b, d)
  }

  /** `k` times the coin set. */
  function Scale(c: Coins, k: nat): Coins {
    if k == 0 then NO_COINS else map d | d in c :: c[d] * k
  }

  function Min(a: nat, b: nat): nat { if a < b then a else b }

  /** Per denomination the smaller of two amounts. */
  function Meet(a: Coins, b: Coins): (r: Coins)
    ensures forall d :: AmountOf(r, d) == Min(AmountOf(a, d), AmountOf(b, d))
  {
    map d | d in a && d in b :: Min(a[d], b[d])
  }

  /** Per denomination the difference, never below zero. */
  function Monus(a: Coins, b: Coins): (r: Coins)
    ensures forall d :: AmountOf(r, d) == if AmountOf(a, d) > AmountOf(b, d) then AmountOf(a, d) - AmountOf(b, d) else 0
  {
    map d | d in a && a[d] > AmountOf(b, d) :: a[d] - AmountOf(b, d)
  }

  function Restrict(c: Coins, ds: set<string>): (r: Coins)
    ensures forall d :: AmountOf(r, d) == if d in ds then AmountOf(c, d) else 0
  {
    map d | d in c && d in ds :: c[d]
  }

  predicate Covers(a: Coins, b: Coins) {
    forall d :: d in b ==> AmountOf(a, d) >= b[d]
  }

  lemma CoinsEqual(a: Coins, b: Coins)
    requires forall d :: AmountOf(a, d) == AmountOf(b, d)
    ensures a == b
  {
    assert forall d :: d in a <==> AmountOf(a, d) > 0;
    assert forall d :: d in b <==> AmountOf(b, d) > 0;
    assert a.Keys == b.Keys;
    forall d | d in a ensures a[d] == b[d] {
      assert AmountOf(a, d) == AmountOf(b, d);
    }
  }

  lemma AddNothing(a: Coins)
    ensures Add(a, NO_COINS) == a
    ensures Add(NO_COINS, a) == a
  {
    CoinsEqual(Add(a, NO_COINS), a);
    CoinsEqual(Add(NO_COINS, a), a);
  }

  lemma ScaleAmount(c: Coins, k: nat, d: string)
    ensures AmountOf(Scale(c, k), d) == AmountOf(c, d) * k
  {
  }

  lemma Distribute(x: nat, y: nat, k: nat)
    ensures (x + y) * k == x * k + y * k
  {
  }

  lemma ScaleAdd(a: Coins, b: Coins, k: nat)
    ensures Scale(Add(a, b), k) == Add(Scale(a, k), Scale(b, k))
  {
    hide *;
    forall d ensures AmountOf(Scale(Add(a, b), k), d) == AmountOf(Add(Scale(a, k), Scale(b, k)), d) {
      ScaleAmount(Add(a, b), k, d);
      ScaleAmount(a, k, d);
      ScaleAmount(b, k, d);
      Distribute(AmountOf(a, d), AmountOf(b, d), k);
    }
    CoinsEqual(Scale(Add(a, b), k), Add(Scale(a, k), Scale(b, k)));
  }

  lemma ScaleSingle(coin: Coin, k: nat)
    ensures Scale(Single(coin), k) == Single(Coin(coin.denom, coin.amount * k))
  {
    hide Scale;
    forall d ensures AmountOf(Scale(Single(coin), k), d) == AmountOf(Single(Coin(coin.denom, coin.amount * k)), d) {
      ScaleAmount(Single(coin), k, d);
    }
    CoinsEqual(Scale(Single(coin), k), Single(Coin(coin.denom, coin.amount * k)));
  }

  lemma ScaleNothing(k: nat)
    ensures Scale(NO_COINS, k) == NO_COINS
  {
  }
}
