/** When settlement keeps every reservation of a tenant covered, exactly.  A settlement moves the
    balance and what is still promised by amounts that the store before it determines; the
    balance covers the promises afterwards if and only if those amounts say so. */
module Overrun {
  import opened Coins
  import opened Types
  import opened Reservations
  import opened Accrual
  import opened Sums
  import opened Text
  import opened Ledger
  import opened Invariants
  import opened Reachable
  import opened Payments
  import opened Conservation
  import opened Lifetime
  import opened Billing
  import opened Success
  import opened MinimumDuration
  import Batches
  import UuidV7

  // ---------------------------------------------------------------- what one settlement frees

  /** Seconds that a settlement now charges for. */
  function GapNow(l: Lease, now: Time): nat {
    if l.state == Active then BilledSeconds(Sub(now, l.lastSettledAt)) else 0
  }

  /** How much less the lease is promised after the settlement: all it was promised if it ends,
      and otherwise the charged seconds as far as they were still reserved. */
  function FreedBy(l: Lease, closes: bool, gap: nat, min: nat, rs: seq<Receipt>, t: Address, d: string): nat {
    if l.tenant != t || !Live(l) then 0
    else Rate(l.items, d) * (if closes then SecondsLeft(l, min, rs) else Min(gap, SecondsLeft(l, min, rs)))
  }

  predicate Closes(op: Op, bank: Bank, l: Lease, now: Time) {
    op.OpClose? || ShouldAutoClose(bank, l, now) == Ok(true)
  }

  /** What a settling step did to a lease: ended it, moved its last settlement, or nothing because
      nothing was due. */
  ghost predicate Shaped(leases: map<Uuid, Lease>, l: Lease, closes: bool, now: Time, out: Out) {
    if closes then
      && |out.receipts| == 1 && out.receipts[0].uuid == l.uuid
      && l.uuid in out.st.leases && out.st.leases == leases[l.uuid := out.st.leases[l.uuid]] && !Live(out.st.leases[l.uuid])
    else if out.receipts == [] then
      out.st.leases == leases && forall d :: Rate(l.items, d) * GapNow(l, now) == 0
    else
      && l.state == Active && |out.receipts| == 1 && out.receipts[0].uuid == l.uuid && GapSeconds(out.receipts[0]) == GapNow(l, now)
      && out.st.leases == leases[l.uuid := l.(lastSettledAt := now)]
  }

  lemma FinishIsShaped(st: Store, env: Env, l: Lease, silent: bool, reason: string, wrap: bool)
    requires Finish(st, env, l, silent, reason, wrap).Ok?
    ensures Shaped(st.leases, l, true, env.now, Finish(st, env, l, silent, reason, wrap).value)
  {
    hide Finish, Settle, Payout;
    FinishReceipt(st, env, l, silent, reason, wrap);
    Batches.FinishTouchesOne(st, env, l, silent, reason, wrap);
  }

  lemma IdleIsShaped(st: Store, l: Lease, now: Time)
    requires l.state != Active
    ensures Shaped(st.leases, l, false, now, Out(st, []))
  {
    hide Rate;
  }

  /** An open lease with nothing due. */
  lemma NothingDueIsShaped(st: Store, l: Lease, now: Time)
    requires l.state == Active && l.lastSettledAt <= now && DueAt(l, now) == NO_COINS
    ensures Shaped(st.leases, l, false, now, Out(st, []))
  {
    hide Rate, DueAt, BilledSeconds, Sub;
    forall d ensures Rate(l.items, d) * GapNow(l, now) == 0 {
      DueAmount(l, now, d);
    }
  }

  lemma MovedIsShaped(st: Store, bank: Bank, catalog: Catalog, l: Lease, now: Time, s: Settlement)
    requires l.state == Active && SetLease(st.(bank := bank), l.(lastSettledAt := now)).Ok?
    ensures Shaped(st.leases, l, false, now,
                   Out(SetLease(st.(bank := bank), l.(lastSettledAt := now)).value, [MakeReceipt(catalog, l, now, s, false)]))
  {
    hide SetLease, Rate, Payout;
    Batches.WriteTouchesOne(st.(bank := bank), l.(lastSettledAt := now));
  }

  lemma OpenMeansNotExhausted(bank: Bank, l: Lease, now: Time)
    requires l.state == Active && l.lastSettledAt <= now
    ensures ShouldAutoClose(bank, l, now).Ok? && (ShouldAutoClose(bank, l, now).value <==> Exhausted(bank, l, now))
  {
    hide Exhausted;
    SaturationIsHarmless(now, l.lastSettledAt);
  }

  lemma CloseIsShaped(st: Store, env: Env, l: Lease, reason: string)
    requires CloseOne(st, env, l, reason).Ok?
    ensures l.state == Active && Shaped(st.leases, l, true, env.now, CloseOne(st, env, l, reason).value)
  {
    hide Finish, ShouldAutoClose, Shaped;
    var exhausted := ShouldAutoClose(st.bank, l, env.now).value;
    FinishIsShaped(st, env, l, exhausted, if exhausted then CREDIT_EXHAUSTED else reason, true);
  }

  lemma SettledBefore(l: Lease, now: Time)
    requires TimelyLease(l, now)
    ensures l.state == Active ==> SettleTime(l, now) == now
    ensures l.state != Active ==> SettleTime(l, now) == l.lastSettledAt
    ensures l.lastSettledAt <= now
  {
  }

  lemma NotActiveStaysOpen(bank: Bank, l: Lease, now: Time)
    requires l.state != Active
    ensures ShouldAutoClose(bank, l, now) == Ok(false)
  {
  }

  lemma WithdrawIsShaped(st: Store, env: Env, l: Lease)
    requires TimelyLease(l, env.now) && WithdrawOne(st, env, l).Ok?
    ensures Shaped(st.leases, l, Closes(OpWithdraw, st.bank, l, env.now), env.now, WithdrawOne(st, env, l).value)
  {
    SettledBefore(l, env.now);
    hide Finish, ShouldAutoClose, Shaped, Settle, SetLease, MakeReceipt, SettleTime, TimelyLease, Exhausted, DueAt;
    var at := SettleTime(l, env.now);
    if ShouldAutoClose(st.bank, l, env.now).value {
      FinishIsShaped(st, env, l, true, CREDIT_EXHAUSTED, false);
    } else if l.state != Active {
      NoTimeNoCharge(st.bank, env.catalog, l, at, false);
      IdleIsShaped(st, l, env.now);
    } else {
      OpenMeansNotExhausted(st.bank, l, env.now);
      FullSettlement(st.bank, env.catalog, l, env.now, false, "");
      var s := Settle(st.bank, env.catalog, l, env.now, false).value;
      if s.accrued == NO_COINS {
        NothingDueIsShaped(st, l, env.now);
      } else {
        MovedIsShaped(st, s.bank, env.catalog, l, env.now, s);
      }
    }
  }

  lemma SweepIsShaped(st: Store, env: Env, l: Lease)
    requires TimelyLease(l, env.now) && SweepOne(st, env, l).Ok?
    ensures Shaped(st.leases, l, Closes(OpSweep, st.bank, l, env.now), env.now, SweepOne(st, env, l).value)
  {
    SettledBefore(l, env.now);
    hide Finish, ShouldAutoClose, Shaped, Settle, SetLease, MakeReceipt, SettleTime, TimelyLease, Exhausted;
    if ShouldAutoClose(st.bank, l, env.now).value {
      FinishIsShaped(st, env, l, true, CREDIT_EXHAUSTED, false);
    } else if l.state != Active {
      IdleIsShaped(st, l, env.now);
    } else if env.now <= l.lastSettledAt {
      assert DueAt(l, env.now) == NO_COINS;
      NothingDueIsShaped(st, l, env.now);
    } else {
      hide DueAt;
      OpenMeansNotExhausted(st.bank, l, env.now);
      FullSettlement(st.bank, env.catalog, l, env.now, true, "");
      var s := Settle(st.bank, env.catalog, l, env.now, true).value;
      if s.transfer == NO_COINS {
        NothingDueIsShaped(st, l, env.now);
      } else {
        MovedIsShaped(st, s.bank, env.catalog, l, env.now, s);
      }
    }
  }

  lemma StepIsShaped(op: Op, env: Env, st: Store, u: Uuid)
    requires Charges(op) && u in st.leases && st.leases[u].uuid == u && TimelyLease(st.leases[u], env.now) && Strict(op, env, st, u).Ok?
    ensures Shaped(st.leases, st.leases[u], Closes(op, st.bank, st.leases[u], env.now), env.now, Strict(op, env, st, u).value)
    ensures Closes(op, st.bank, st.leases[u], env.now) ==> st.leases[u].state == Active
  {
    hide CloseOne, WithdrawOne, SweepOne, Shaped, TimelyLease, Exhausted;
    var l := st.leases[u];
    match op
    case OpClose(reason) => CloseIsShaped(st, env, l, reason);
    case OpWithdraw => WithdrawIsShaped(st, env, l);
    case OpSweep => SweepIsShaped(st, env, l);
  }

  // ---------------------------------------------------------------- the promises after one settlement

  lemma Split(rate: nat, gap: nat, left: nat)
    ensures rate * (if left > gap then left - gap else 0) + rate * Min(gap, left) == rate * left
    ensures rate * gap == 0 ==> rate * Min(gap, left) == 0
  {
    var rest := if left > gap then left - gap else 0;
    assert rest + Min(gap, left) == left;
    assert rate * (rest + Min(gap, left)) == rate * rest + rate * Min(gap, left);
  }

  lemma MovedPromise(l: Lease, now: Time, rs: seq<Receipt>, r: Receipt, t: Address, d: string, min: nat)
    requires l.state == Active && r.uuid == l.uuid && GapSeconds(r) == GapNow(l, now)
    ensures PromisedTo(t, d, min, rs + [r])(l.(lastSettledAt := now)) + FreedBy(l, false, GapNow(l, now), min, rs, t, d)
            == PromisedTo(t, d, min, rs)(l)
  {
    hide SecondsOf, Rate, GapSeconds, GapNow, CountOf, PaidFor, WithinFor, FullFor;
    Snoc(rs, r, l.uuid, d);
    Split(Rate(l.items, d), GapNow(l, now), SecondsLeft(l, min, rs));
  }

  /** What is promised after a step is what was promised before, less what the step frees. */
  lemma ShapedFrees(leases: map<Uuid, Lease>, l: Lease, closes: bool, now: Time, out: Out, rs: seq<Receipt>, t: Address, d: string, min: nat)
    requires LeasesFiled(leases) && l.uuid in leases && leases[l.uuid] == l && Shaped(leases, l, closes, now, out)
    requires closes ==> l.state == Active
    ensures Sum(out.st.leases, PromisedTo(t, d, min, rs + out.receipts)) + FreedBy(l, closes, GapNow(l, now), min, rs, t, d)
            == Sum(leases, PromisedTo(t, d, min, rs))
  {
    hide Sum, Rate, SecondsOf, GapNow, GapSeconds, SecondsLeft;
    if out.receipts == [] {
      assert rs + out.receipts == rs;
      Split(Rate(l.items, d), GapNow(l, now), SecondsLeft(l, min, rs));
    } else {
      var r, u := out.receipts[0], l.uuid;
      assert out.receipts == [r];
      OthersKeepTheirSeconds(leases, u, rs, r, t, d, min);
      SumRemove(leases, PromisedTo(t, d, min, rs), u);
      SumRemove(out.st.leases, PromisedTo(t, d, min, rs + [r]), u);
      assert out.st.leases - {u} == leases - {u};
      if !closes {
        MovedPromise(l, now, rs, r, t, d, min);
      }
    }
  }

  // ---------------------------------------------------------------- batches

  /** Credit of the tenant after the listed leases have been charged. */
  function CreditAfter(bank: Bank, leases: map<Uuid, Lease>, us: seq<Uuid>, t: Address, d: string, now: Time): nat {
    Holding(bank, Credit(t), d) - Min(Holding(bank, Credit(t), d), ChargeSum(leases, us, t, d, now))
  }

  /** The credit is used up for lease `l` once the leases listed before it have been charged. */
  predicate Drained(bank: Bank, leases: map<Uuid, Lease>, us: seq<Uuid>, l: Lease, now: Time) {
    if now > l.lastSettledAt then
      exists d :: d in DueAt(l, now) && DueAt(l, now)[d] >= CreditAfter(bank, leases, us, l.tenant, d, now)
    else
      exists i :: 0 <= i < |l.items| && CreditAfter(bank, leases, us, l.tenant, l.items[i].lockedPrice.denom, now) == 0
  }

  predicate WillClose(op: Op, bank: Bank, leases: map<Uuid, Lease>, us: seq<Uuid>, l: Lease, now: Time) {
    op.OpClose? || (l.state == Active && Drained(bank, leases, us, l, now))
  }

  /** What a batch frees, from the store before it. */
  function Freed(op: Op, bank: Bank, leases: map<Uuid, Lease>, us: seq<Uuid>, now: Time, min: nat, rs: seq<Receipt>, t: Address, d: string): nat {
    if us == [] then 0
    else
      var u, before := us[|us| - 1], us[..|us| - 1];
      Freed(op, bank, leases, before, now, min, rs, t, d) +
      if u in leases then FreedBy(leases[u], WillClose(op, bank, leases, before, leases[u], now), GapNow(leases[u], now), min, rs, t, d) else 0
  }

  lemma DrainedIsExhausted(bank': Bank, bank: Bank, leases: map<Uuid, Lease>, us: seq<Uuid>, l: Lease, now: Time)
    requires l.lastSettledAt <= now && WithinLimit(l, now)
    requires forall d :: Holding(bank', Credit(l.tenant), d) == CreditAfter(bank, leases, us, l.tenant, d, now)
    ensures Exhausted(bank', l, now) <==> Drained(bank, leases, us, l, now)
  {
    SaturationIsHarmless(now, l.lastSettledAt);
    hide CreditAfter, Accrued, Overflows, Available, Denoms, Holding;
    forall d ensures AmountOf(Available(bank', l), d) == if d in Denoms(l.items) then CreditAfter(bank, leases, us, l.tenant, d, now) else 0 {
      AvailableAt(bank', l, d);
    }
    if now > l.lastSettledAt {
      forall d | d in DueAt(l, now) ensures d in Denoms(l.items) {
        DueInDenoms(l, now, d);
      }
    } else {
      forall i | 0 <= i < |l.items| ensures l.items[i].lockedPrice.denom in Denoms(l.items) {
        ItemDenom(l.items, i);
      }
    }
  }

  lemma ItemDenom(items: seq<LeaseItem>, i: nat)
    requires i < |items|
    ensures items[i].lockedPrice.denom in Denoms(items)
  {
    assert items[i] in items;
  }

  lemma ClosesAsForeseen(op: Op, bank': Bank, bank: Bank, leases: map<Uuid, Lease>, us: seq<Uuid>, l: Lease, now: Time)
    requires l.lastSettledAt <= now && (l.state == Active ==> WithinLimit(l, now))
    requires forall d :: Holding(bank', Credit(l.tenant), d) == CreditAfter(bank, leases, us, l.tenant, d, now)
    ensures Closes(op, bank', l, now) <==> WillClose(op, bank, leases, us, l, now)
  {
    hide Exhausted, Drained, CreditAfter, Holding, WithinLimit;
    if l.state == Active {
      OpenMeansNotExhausted(bank', l, now);
      DrainedIsExhausted(bank', bank, leases, us, l, now);
    }
  }

  /** A batch whose leases are all settled: each within the accrual limit and paid outside the
      credit accounts and, in a sweep, of a known provider so that none is passed over. */
  ghost predicate Settles(op: Op, env: Env, st: Store, us: seq<Uuid>) {
    && Charges(op) && Distinct(us) && Batch(op, env, st, us).Ok?
    && (forall u :: u in us && u in st.leases ==> Chargeable(env.catalog, st.leases[u], env.now))
    && (op.OpSweep? ==> AllCharged(op, env, st.leases, us))
  }

  lemma SettlesPrefix(op: Op, env: Env, st: Store, us: seq<Uuid>)
    requires us != [] && Settles(op, env, st, us)
    ensures Settles(op, env, st, us[..|us| - 1]) && us[|us| - 1] !in us[..|us| - 1]
  {
    hide One, Chargeable, Charged;
    var n := |us| - 1;
    assert forall u :: u in us[..n] ==> u in us;
  }

  /** The credit after a batch, whichever kind. */
  lemma SettlesDraws(op: Op, env: Env, st: Store, us: seq<Uuid>, t: Address, d: string)
    requires Indexed(st) && Settles(op, env, st, us)
    ensures Holding(Batch(op, env, st, us).value.st.bank, Credit(t), d) == CreditAfter(st.bank, st.leases, us, t, d, env.now)
  {
    hide Indexed, Batch, Distinct, Chargeable, AllCharged, Holding, ChargeSum;
    if op.OpSweep? {
      ChargedBatchDraws(op, env, st, us, t, d);
    } else {
      BatchDraws(op, env, st, us, t, d);
    }
  }

  lemma LastStepSettles(op: Op, env: Env, st: Store, us: seq<Uuid>)
    requires Indexed(st) && us != [] && Settles(op, env, st, us)
    ensures var n := |us| - 1;
            var before := Batch(op, env, st, us[..n]);
            && before.Ok? && us[n] in before.value.st.leases && us[n] in st.leases && before.value.st.leases[us[n]] == st.leases[us[n]]
            && Strict(op, env, before.value.st, us[n]).Ok?
            && Batch(op, env, st, us) == Ok(Out(Strict(op, env, before.value.st, us[n]).value.st,
                                                before.value.receipts + Strict(op, env, before.value.st, us[n]).value.receipts))
            && Chargeable(env.catalog, st.leases[us[n]], env.now)
  {
    hide Indexed, Settles, Batch, One, Chargeable, Charged, ReservedExactly, OnlyEvolved, Strict, Distinct;
    var n := |us| - 1;
    SettlesPrefix(op, env, st, us);
    SettlesIsOk(op, env, st, us[..n]);
    SettlesIsOk(op, env, st, us);
    SettlesLast(op, env, st, us);
    var before := Batch(op, env, st, us[..n]).value;
    BatchIsKept(op, env, st, us[..n]);
    BatchLeavesOthers(op, env, st, us[..n], us[n]);
    if op.OpSweep? {
      ChargedStepSucceeds(op, env, before.st, us[n]);
    }
    assert us[..n + 1] == us;
    Batches.BatchNext(op, env, st, us, n);
    OneIsStrict(op, env, before.st, us[n]);
    StrictNeedsLease(op, env, before.st, us[n]);
  }

  lemma SettlesLast(op: Op, env: Env, st: Store, us: seq<Uuid>)
    requires us != [] && Settles(op, env, st, us)
    ensures var u := us[|us| - 1];
            && (u in st.leases ==> Chargeable(env.catalog, st.leases[u], env.now))
            && (op.OpSweep? ==> u in st.leases && Charged(op, env, st.leases[u]))
  {
    hide Batch, Chargeable, Charged, Distinct;
    assert us[|us| - 1] in us;
  }

  /** A step that counts, and does not fail, is the strict one. */
  lemma OneIsStrict(op: Op, env: Env, st: Store, u: Uuid)
    requires Charges(op) && One(op, env, st, u).Ok? && (op.OpSweep? ==> Strict(op, env, st, u).Ok?)
    ensures One(op, env, st, u) == Strict(op, env, st, u)
  {
    hide Strict;
  }

  lemma StrictNeedsLease(op: Op, env: Env, st: Store, u: Uuid)
    ensures Strict(op, env, st, u).Ok? ==> u in st.leases
  {
    hide AcknowledgeOne, RejectOne, ExpireOne, CloseOne, WithdrawOne, SweepOne;
  }

  lemma {:induction false} SecondsConcat(a: seq<Receipt>, b: seq<Receipt>, u: Uuid)
    ensures SecondsOf(a + b, u) == SecondsOf(a, u) + SecondsOf(b, u)
    decreases |b|
  {
    if b == [] {
      assert a + b == a;
    } else {
      var n := |b| - 1;
      SecondsConcat(a, b[..n], u);
      assert a + b == (a + b[..n]) + [b[n]];
      assert b == b[..n] + [b[n]];
      Snoc(a + b[..n], b[n], u, "");
      Snoc(b[..n], b[n], u, "");
    }
  }

  /** Receipts of other leases change nothing for this one. */
  lemma OthersFreeNothing(l: Lease, closes: bool, gap: nat, min: nat, rs: seq<Receipt>, more: seq<Receipt>, t: Address, d: string)
    requires forall r :: r in more ==> r.uuid != l.uuid
    ensures FreedBy(l, closes, gap, min, rs + more, t, d) == FreedBy(l, closes, gap, min, rs, t, d)
  {
    hide SecondsOf, Rate;
    SecondsConcat(rs, more, l.uuid);
    NoSecondsElsewhere(more, l.uuid);
  }

  /** The promises after the batch, with what it frees, are the promises before it. */
  ghost predicate Frees(op: Op, env: Env, st: Store, rs: seq<Receipt>, us: seq<Uuid>, t: Address, d: string, out: Out) {
    var min := st.params.minLeaseDuration;
    && out.st.params == st.params
    && Sum(out.st.leases, PromisedTo(t, d, min, rs + out.receipts)) + Freed(op, st.bank, st.leases, us, env.now, min, rs, t, d)
       == Sum(st.leases, PromisedTo(t, d, min, rs))
  }

  lemma FreedLast(op: Op, bank: Bank, leases: map<Uuid, Lease>, us: seq<Uuid>, now: Time, min: nat, rs: seq<Receipt>, t: Address, d: string)
    requires us != [] && us[|us| - 1] in leases
    ensures var u, before := us[|us| - 1], us[..|us| - 1];
            Freed(op, bank, leases, us, now, min, rs, t, d) ==
            Freed(op, bank, leases, before, now, min, rs, t, d) +
            FreedBy(leases[u], WillClose(op, bank, leases, before, leases[u], now), GapNow(leases[u], now), min, rs, t, d)
  {
    hide FreedBy, WillClose;
  }

  /** One more lease of the batch. */
  lemma FreesNext(op: Op, env: Env, st: Store, rs: seq<Receipt>, us: seq<Uuid>, t: Address, d: string, before: Out)
    requires Indexed(st) && Timely(st.leases, env.now) && us != [] && Settles(op, env, st, us)
    requires Batch(op, env, st, us[..|us| - 1]) == Ok(before) && Frees(op, env, st, rs, us[..|us| - 1], t, d, before)
    ensures Frees(op, env, st, rs, us, t, d, Batch(op, env, st, us).value)
  {
    hide Indexed, Timely, Settles, Batch, Strict, ReservedExactly, OnlyEvolved, AllPersist, Sum, PromisedTo, FreedBy, WillClose, Closes, ReceiptOf, Chargeable, Freed, GapNow;
    var n := |us| - 1;
    var u := us[n];
    SettlesPrefix(op, env, st, us);
    SettlesIsOk(op, env, st, us);
    LastStepSettles(op, env, st, us);
    var l := st.leases[u];
    BatchIsKept(op, env, st, us[..n]);
    BatchPersists(op, env, st, us[..n]);
    LastStepFrees(op, env, before.st, rs + before.receipts, u, t, d);
    BatchReceipts(op, env, st, us[..n]);
    FiledUnderKey(st, u);
    OthersFreeNothing(l, Closes(op, before.st.bank, l, env.now), GapNow(l, env.now), st.params.minLeaseDuration, rs, before.receipts, t, d);
    ChargeableInTime(st.leases, u, env);
    Foreseen(op, env, st, us[..n], l);
    FreedLast(op, st.bank, st.leases, us, env.now, st.params.minLeaseDuration, rs, t, d);
    var more := Strict(op, env, before.st, u).value.receipts;
    assert rs + (before.receipts + more) == rs + before.receipts + more;
  }

  /** What is promised after a batch, from the store before it. */
  lemma {:induction false} BatchFrees(op: Op, env: Env, st: Store, rs: seq<Receipt>, us: seq<Uuid>, t: Address, d: string)
    requires Indexed(st) && Timely(st.leases, env.now) && Settles(op, env, st, us)
    ensures Frees(op, env, st, rs, us, t, d, Batch(op, env, st, us).value)
    decreases |us|
  {
    if us == [] {
      hide Indexed, Timely, Settles, Sum, PromisedTo;
      assert rs + [] == rs;
    } else {
      SettlesPrefix(op, env, st, us);
      SettlesIsOk(op, env, st, us[..|us| - 1]);
      hide Indexed, Timely, Settles, Batch, Frees;
      BatchFrees(op, env, st, rs, us[..|us| - 1], t, d);
      FreesNext(op, env, st, rs, us, t, d, Batch(op, env, st, us[..|us| - 1]).value);
    }
  }

  lemma SettlesIsOk(op: Op, env: Env, st: Store, us: seq<Uuid>)
    requires Settles(op, env, st, us)
    ensures Batch(op, env, st, us).Ok? && Charges(op)
  {
    hide Batch, Chargeable, AllCharged, Distinct;
  }

  lemma ChargeableInTime(leases: map<Uuid, Lease>, u: Uuid, env: Env)
    requires Timely(leases, env.now) && u in leases && Chargeable(env.catalog, leases[u], env.now)
    ensures leases[u].lastSettledAt <= env.now && (leases[u].state == Active ==> WithinLimit(leases[u], env.now))
  {
    hide WithinLimit;
    TimelyAt(leases, u, env.now);
  }

  lemma LastStepFrees(op: Op, env: Env, st: Store, rs: seq<Receipt>, u: Uuid, t: Address, d: string)
    requires Indexed(st) && Timely(st.leases, env.now) && Charges(op) && u in st.leases && Strict(op, env, st, u).Ok?
    ensures var out, min, l := Strict(op, env, st, u).value, st.params.minLeaseDuration, st.leases[u];
            && out.st.params == st.params
            && Sum(out.st.leases, PromisedTo(t, d, min, rs + out.receipts)) +
               FreedBy(l, Closes(op, st.bank, l, env.now), GapNow(l, env.now), min, rs, t, d)
               == Sum(st.leases, PromisedTo(t, d, min, rs))
  {
    assert One(op, env, st, u) == Strict(op, env, st, u);
    hide Indexed, Strict, Shaped, Sum, PromisedTo, FreedBy, Closes, TimelyLease, ReservedExactly, Evolves;
    FiledUnderKey(st, u);
    FiledOf(st);
    TimelyAt(st.leases, u, env.now);
    OneIsKept(op, env, st, u);
    StepIsShaped(op, env, st, u);
    ShapedFrees(st.leases, st.leases[u], Closes(op, st.bank, st.leases[u], env.now), env.now, Strict(op, env, st, u).value, rs, t, d, st.params.minLeaseDuration);
  }

  /** Whether the next lease will be closed can be told from the store before the batch. */
  lemma Foreseen(op: Op, env: Env, st: Store, us: seq<Uuid>, l: Lease)
    requires Indexed(st) && Settles(op, env, st, us) && Batch(op, env, st, us).Ok?
    requires l.lastSettledAt <= env.now && (l.state == Active ==> WithinLimit(l, env.now))
    ensures Closes(op, Batch(op, env, st, us).value.st.bank, l, env.now) <==> WillClose(op, st.bank, st.leases, us, l, env.now)
  {
    hide Indexed, Settles, Batch, Closes, WillClose, WithinLimit, CreditAfter, Holding;
    forall d ensures Holding(Batch(op, env, st, us).value.st.bank, Credit(l.tenant), d) == CreditAfter(st.bank, st.leases, us, l.tenant, d, env.now) {
      SettlesDraws(op, env, st, us, l.tenant, d);
    }
    ClosesAsForeseen(op, Batch(op, env, st, us).value.st.bank, st.bank, st.leases, us, l, env.now);
  }

  /** The batch leaves the promises covered: what it draws and frees, computed from the store
      before it, leave enough. */
  ghost predicate FitsBatch(op: Op, env: Env, st: Store, rs: seq<Receipt>, us: seq<Uuid>, t: Address, d: string) {
    CreditAfter(st.bank, st.leases, us, t, d, env.now) + Freed(op, st.bank, st.leases, us, env.now, st.params.minLeaseDuration, rs, t, d)
    >= Sum(st.leases, PromisedTo(t, d, st.params.minLeaseDuration, rs))
  }

  /** After a batch of closings, withdrawals or swept leases the balance covers the promises if and
      only if the store before it says so. */
  lemma BatchBackedIff(op: Op, env: Env, st: Store, rs: seq<Receipt>, us: seq<Uuid>, t: Address, d: string)
    requires Indexed(st) && Timely(st.leases, env.now) && Settles(op, env, st, us)
    ensures var out := Batch(op, env, st, us).value;
            Backed(out.st, rs + out.receipts, t, d) <==> FitsBatch(op, env, st, rs, us, t, d)
  {
    SettlesIsOk(op, env, st, us);
    hide Indexed, Timely, Settles, Batch, Sum, PromisedTo, CreditAfter, Freed, Holding;
    BatchFrees(op, env, st, rs, us, t, d);
    SettlesDraws(op, env, st, us, t, d);
  }

  // ---------------------------------------------------------------- one lease that stays open

  lemma FreedOfOne(op: Op, bank: Bank, leases: map<Uuid, Lease>, u: Uuid, now: Time, min: nat, rs: seq<Receipt>, t: Address, d: string)
    requires u in leases
    ensures Freed(op, bank, leases, [u], now, min, rs, t, d) ==
            FreedBy(leases[u], WillClose(op, bank, leases, [], leases[u], now), GapNow(leases[u], now), min, rs, t, d)
  {
    hide FreedBy, WillClose, GapNow;
    assert [u][..0] == [];
  }

  lemma OpenChargeFits(bank: Bank, leases: map<Uuid, Lease>, l: Lease, now: Time, d: string)
    requires l.state == Active && l.lastSettledAt <= now && !Drained(bank, leases, [], l, now)
    ensures AmountOf(Charge(l, now), d) == Rate(l.items, d) * GapNow(l, now) <= Holding(bank, Credit(l.tenant), d)
  {
    hide Holding, Rate, BilledSeconds, Sub;
    DueAmount(l, now, d);
    if now > l.lastSettledAt && d in DueAt(l, now) {
      assert DueAt(l, now)[d] < CreditAfter(bank, leases, [], l.tenant, d, now);
    }
  }

  lemma OpenFrees(l: Lease, gap: nat, min: nat, rs: seq<Receipt>, d: string)
    requires l.state == Active
    ensures FreedBy(l, false, gap, min, rs, l.tenant, d) == Rate(l.items, d) * Min(gap, SecondsLeft(l, min, rs))
  {
    hide Rate, SecondsLeft;
  }

  lemma SpareArithmetic(held: nat, promised: nat, rate: nat, gap: nat, left: nat)
    requires promised <= held && rate * gap <= held
    ensures held - Min(held, rate * gap) + rate * Min(gap, left) >= promised <==>
            rate * (if gap > left then gap - left else 0) <= held - promised
  {
    var over := if gap > left then gap - left else 0;
    assert gap == Min(gap, left) + over;
    assert rate * gap == rate * Min(gap, left) + rate * over;
  }

  /** A settlement that leaves its lease open keeps the promises covered if and only if the seconds
      it charges beyond the reserved ones fit into the credit that nothing was promised. */
  lemma OverrunMustFit(op: Op, env: Env, st: Store, rs: seq<Receipt>, u: Uuid, d: string)
    requires Indexed(st) && Timely(st.leases, env.now) && Settles(op, env, st, [u]) && u in st.leases && st.leases[u].state == Active
    requires !WillClose(op, st.bank, st.leases, [], st.leases[u], env.now) && Backed(st, rs, st.leases[u].tenant, d)
    ensures var out, l, min := Batch(op, env, st, [u]).value, st.leases[u], st.params.minLeaseDuration;
            var gap, left := GapNow(l, env.now), SecondsLeft(l, min, rs);
            Backed(out.st, rs + out.receipts, l.tenant, d) <==>
            Rate(l.items, d) * (if gap > left then gap - left else 0)
            <= Holding(st.bank, Credit(l.tenant), d) - Sum(st.leases, PromisedTo(l.tenant, d, min, rs))
  {
    hide Indexed, Timely, Settles, Batch, Sum, PromisedTo, Holding, Drained, GapNow, SecondsLeft, Rate, Charge, ChargeSum, TimelyLease, FreedBy;
    var l, min := st.leases[u], st.params.minLeaseDuration;
    SettlesIsOk(op, env, st, [u]);
    TimelyAt(st.leases, u, env.now);
    SettledBefore(l, env.now);
    OpenFrees(l, GapNow(l, env.now), min, rs, d);
    BatchBackedIff(op, env, st, rs, [u], l.tenant, d);
    FreedOfOne(op, st.bank, st.leases, u, env.now, min, rs, l.tenant, d);
    ChargeOfOne(st.leases, u, env.now, d);
    OpenChargeFits(st.bank, st.leases, l, env.now, d);
    SpareArithmetic(Holding(st.bank, Credit(l.tenant), d), Sum(st.leases, PromisedTo(l.tenant, d, min, rs)),
                    Rate(l.items, d), GapNow(l, env.now), SecondsLeft(l, min, rs));
  }

  // ---------------------------------------------------------------- events

  lemma SweptLeases(st: Store, provider: string, limit: nat)
    ensures Distinct(SweepTargets(st, provider, limit))
    ensures forall u :: u in SweepTargets(st, provider, limit) ==> u in st.leases && st.leases[u].providerUuid == provider
  {
    var a, c := ProviderLeases(st, provider, Active), ProviderLeases(st, provider, Closed);
    hide Sorted, Increasing;
    IncreasingIsDistinct(a);
    IncreasingIsDistinct(c);
    assert forall u :: u in a ==> u in st.leases && st.leases[u].providerUuid == provider && st.leases[u].state == Active;
    assert forall u :: u in c ==> u in st.leases && st.leases[u].providerUuid == provider && st.leases[u].state == Closed;
    hide ProviderLeases;
    DistinctConcat(a, c);
    var q := SweepTargets(st, provider, limit);
    assert q <= a + c;
    assert forall u :: u in q ==> u in a + c;
  }

  lemma DistinctConcat(a: seq<Uuid>, b: seq<Uuid>)
    requires Distinct(a) && Distinct(b) && forall u :: u in a ==> u !in b
    ensures Distinct(a + b)
  {
    assert forall i :: 0 <= i < |a| ==> a[i] in a;
    assert forall i :: 0 <= i < |b| ==> b[i] in b;
  }

  /** The leases a message settles are within the accrual limit and pay outside the credit accounts. */
  predicate ChargeableEvent(env: Env, st: Store, ev: Event) {
    Settling(ev) ==> forall u :: u in BatchTargets(env, st, ev) && u in st.leases ==> Chargeable(env.catalog, st.leases[u], env.now)
  }

  lemma BatchMessageIsDistinct(env: Env, st: Store, ev: Event)
    requires (ev.Close? || ev.Withdraw?) && Handle(env, st, ev).Ok?
    ensures Distinct(ev.uuids)
  {
    hide Batch, CloseRole, WithdrawProvider, UuidV7.IsValidUUIDv7, Distinct;
  }

  lemma SweepIsAuthorized(env: Env, st: Store, ev: Event)
    requires ev.Sweep? && Handle(env, st, ev).Ok?
    ensures ev.provider in env.catalog.providers
  {
    hide Batch, UuidV7.IsValidUUIDv7, SweepTargets;
  }

  lemma EventSettles(env: Env, st: Store, ev: Event)
    requires Timely(st.leases, env.now) && Settling(ev) && Handle(env, st, ev).Ok? && ChargeableEvent(env, st, ev)
    ensures Settles(BatchOp(ev), env, st, BatchTargets(env, st, ev))
  {
    hide Handle, Batch, Chargeable, TimelyLease, Distinct, SweepTargets;
    HandleIsBatch(env, st, ev);
    if ev.Sweep? {
      SweepIsAuthorized(env, st, ev);
      SweptLeases(st, ev.provider, ev.limit);
    } else {
      BatchMessageIsDistinct(env, st, ev);
    }
  }

  /** The condition of an event: none, unless it is a settling message that is accepted. */
  ghost predicate FitsEvent(env: Env, st: Store, rs: seq<Receipt>, ev: Event, t: Address, d: string) {
    Settling(ev) && Handle(env, st, ev).Ok? ==> FitsBatch(BatchOp(ev), env, st, rs, BatchTargets(env, st, ev), t, d)
  }

  /** An event leaves the promises covered if and only if its condition holds before it. */
  lemma EventBackedIff(env: Env, st: Store, rs: seq<Receipt>, ev: Event, t: Address, d: string)
    requires Good(st) && ReservedExactly(st) && Timely(st.leases, env.now) && Backed(st, rs, t, d) && Spares(st, ev, t, d)
    requires Creates(ev) && Handle(env, st, ev).Ok? ==> NextUuid(env, st) !in st.leases
    requires NoLegacy(st.leases) || Deliver(env, st, ev).st.params.minLeaseDuration == st.params.minLeaseDuration
    requires ChargeableEvent(env, st, ev)
    ensures Backed(Deliver(env, st, ev).st, rs + Deliver(env, st, ev).receipts, t, d) <==> FitsEvent(env, st, rs, ev, t, d)
  {
    hide Indexed, ReservedExactly, NoLegacy, Timely, Backed, Spares, Handle, NextUuid, ChargeableEvent, FitsBatch, Settles, Batch, BatchTargets;
    assert rs + [] == rs;
    if !Settling(ev) {
      QuietEventKeepsBacked(env, st, rs, ev, t, d);
    } else if Handle(env, st, ev).Ok? {
      HandleIsBatch(env, st, ev);
      EventSettles(env, st, ev);
      BatchBackedIff(BatchOp(ev), env, st, rs, BatchTargets(env, st, ev), t, d);
    }
  }

  // ---------------------------------------------------------------- runs

  /** The promises are covered at every point of the run. */
  ghost predicate BackedThroughout(st: Store, steps: seq<Step>, t: Address, d: string) {
    && Backed(Run(st, steps).st, Run(st, steps).receipts, t, d)
    && (steps == [] || BackedThroughout(st, steps[..|steps| - 1], t, d))
  }

  /** Every step of the run meets its condition in the store before it. */
  ghost predicate FitsThroughout(st: Store, steps: seq<Step>, t: Address, d: string) {
    steps == [] ||
    var n := |steps| - 1;
    var before := Run(st, steps[..n]);
    FitsThroughout(st, steps[..n], t, d) && FitsEvent(steps[n].env, before.st, before.receipts, steps[n].event, t, d)
  }

  ghost predicate ChargeableRun(st: Store, steps: seq<Step>) {
    steps == [] ||
    var n := |steps| - 1;
    ChargeableRun(st, steps[..n]) && ChargeableEvent(steps[n].env, Run(st, steps[..n]).st, steps[n].event)
  }

  /** Over every run in which nothing but settlement takes from the credit address: the balance
      covers the uncharged reserved seconds of all live leases of the tenant at every point if and
      only if every settling message meets its condition in the store before it. */
  lemma {:induction false} RunBackedIff(st: Store, now: Time, steps: seq<Step>, t: Address, d: string)
    requires Good(st) && FreshRun(st, steps) && ReservedExactly(st)
    requires NoLegacy(st.leases) || SameMinimum(steps, st.params.minLeaseDuration)
    requires Timely(st.leases, now) && Clocked(now, steps) && Backed(st, [], t, d)
    requires SparedRun(st, steps, t, d) && ChargeableRun(st, steps)
    ensures BackedThroughout(st, steps, t, d) <==> FitsThroughout(st, steps, t, d)
    decreases |steps|
  {
    hide Good, ReservedExactly, NoLegacy, Timely, Backed, Spares, Deliver, Handle, NextUuid, AllPersist, ChargeableEvent, FitsEvent;
    if steps != [] {
      var n := |steps| - 1;
      RunBackedIff(st, now, steps[..n], t, d);
      if BackedThroughout(st, steps[..n], t, d) {
        RunKeepsGood(st, steps[..n]);
        RunKeepsReserved(st, steps[..n]);
        RunPersists(st, now, steps[..n]);
        var before, env, ev := Run(st, steps[..n]), steps[n].env, steps[n].event;
        TimePasses(before.st.leases, LastTime(now, steps[..n]), env.now);
        if !NoLegacy(st.leases) {
          MinimumStays(env, before.st, ev);
        }
        EventBackedIff(env, before.st, before.receipts, ev, t, d);
      }
    }
  }
}
