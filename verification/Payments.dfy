/** What settlement moves: who pays, who receives, and how much, for one lease and for a batch. */
module Payments {
  import opened Coins
  import opened Types
  import opened Reservations
  import opened Accrual
  import opened Sums
  import opened DomainIndex
  import opened Ledger
  import opened Invariants
  import Reachable

  // ---------------------------------------------------------------- the bank

  function DenomOf(d: string): Coins -> nat {
    (c: Coins) => AmountOf(c, d)
  }

  /** Total amount of a denomination over all accounts. */
  ghost function Supply(bank: Bank, d: string): nat { Sum(bank, DenomOf(d)) }

  function Holding(bank: Bank, a: Address, d: string): nat { AmountOf(Balance(bank, a), d) }

  lemma SupplyAfterWrite(bank: Bank, a: Address, c: Coins, d: string)
    ensures Supply(bank[a := c], d) == Supply(bank, d) - Holding(bank, a, d) + AmountOf(c, d)
  {
    SumUpdate(bank, DenomOf(d), a, c);
    if a in bank {
      SumBound(bank, DenomOf(d), a);
    }
  }

  /** A transfer moves exactly its amount and creates or destroys nothing. */
  lemma SendMoves(bank: Bank, from: Address, to: Address, amount: Coins, a: Address, d: string)
    requires Send(bank, from, to, amount).Ok?
    ensures Holding(Send(bank, from, to, amount).value, a, d) ==
            Holding(bank, a, d) - (if a == from then AmountOf(amount, d) else 0) + (if a == to then AmountOf(amount, d) else 0)
    ensures Supply(Send(bank, from, to, amount).value, d) == Supply(bank, d)
  {
    hide Supply, Monus, Add;
    assert AmountOf(amount, d) <= Holding(bank, from, d);
    var debited := bank[from := Monus(Balance(bank, from), amount)];
    SupplyAfterWrite(bank, from, Monus(Balance(bank, from), amount), d);
    SupplyAfterWrite(debited, to, Add(Balance(debited, to), amount), d);
  }

  // ---------------------------------------------------------------- one settlement

  /** What a settlement at `at` charges when nothing overflows. */
  function DueAt(l: Lease, at: Time): Coins {
    if at <= l.lastSettledAt then NO_COINS else Accrued(l.items, Sub(at, l.lastSettledAt))
  }

  predicate WithinLimit(l: Lease, at: Time) {
    at <= l.lastSettledAt || !Overflows(l.items, Sub(at, l.lastSettledAt))
  }

  lemma MeetNothing(c: Coins)
    ensures Meet(NO_COINS, c) == NO_COINS
  {
  }

  /** The transfer is the smaller of charge and available credit, denomination by denomination. */
  lemma SettleTransfers(bank: Bank, catalog: Catalog, l: Lease, at: Time, silent: bool)
    requires Settle(bank, catalog, l, at, silent).Ok?
    ensures var s := Settle(bank, catalog, l, at, silent).value;
            && s.transfer == Meet(s.accrued, Available(bank, l))
            && (WithinLimit(l, at) ==> s.accrued == DueAt(l, at))
            && (!WithinLimit(l, at) ==> s.accrued == Available(bank, l))
  {
    SaturationIsHarmless(at, l.lastSettledAt);
    MeetNothing(Available(bank, l));
    hide Accrued, Available, Send, Overflows, Sub, Meet;
  }

  lemma SettlePays(bank: Bank, catalog: Catalog, l: Lease, at: Time, silent: bool, a: Address, d: string)
    requires Settle(bank, catalog, l, at, silent).Ok?
    ensures var s := Settle(bank, catalog, l, at, silent).value;
            && Holding(s.bank, a, d) == Holding(bank, a, d)
                 - (if a == Credit(l.tenant) then AmountOf(s.transfer, d) else 0)
                 + (if a == Payout(catalog, l) then AmountOf(s.transfer, d) else 0)
            && Supply(s.bank, d) == Supply(bank, d)
  {
    hide Accrued, Available, Send, Supply, Holding, Meet, Overflows;
    var s := Settle(bank, catalog, l, at, silent).value;
    if s.transfer != NO_COINS {
      SendMoves(bank, Credit(l.tenant), Payout(catalog, l), s.transfer, a, d);
    }
  }

  lemma AvailableAt(bank: Bank, l: Lease, d: string)
    ensures AmountOf(Available(bank, l), d) == if d in Denoms(l.items) then Holding(bank, Credit(l.tenant), d) else 0
  {
  }

  /** Nothing accrues outside the lease's denominations. */
  lemma DueInDenoms(l: Lease, at: Time, d: string)
    requires d in DueAt(l, at)
    ensures d in Denoms(l.items)
  {
    hide Rates, Denoms;
    ScaleAmount(Rates(l.items), BilledSeconds(Sub(at, l.lastSettledAt)), d);
    if Rate(l.items, d) > 0 {
      RateNeedsDenom(l.items, d);
    }
  }

  // ---------------------------------------------------------------- receipts account for every movement

  function PaidBy(rs: seq<Receipt>, a: Address, d: string): nat {
    if rs == [] then 0
    else PaidBy(rs[..|rs| - 1], a, d) +
         if a == Credit(rs[|rs| - 1].tenant) then AmountOf(rs[|rs| - 1].transfer, d) else 0
  }

  function ReceivedBy(rs: seq<Receipt>, a: Address, d: string): nat {
    if rs == [] then 0
    else ReceivedBy(rs[..|rs| - 1], a, d) +
         if a == rs[|rs| - 1].payout then AmountOf(rs[|rs| - 1].transfer, d) else 0
  }

  /** Total of a list of receipts, as the response reports it. */
  function TotalOf(rs: seq<Receipt>): Coins {
    if rs == [] then NO_COINS else Add(TotalOf(rs[..|rs| - 1]), rs[|rs| - 1].transfer)
  }

  lemma TotalNone()
    ensures TotalOf([]) == NO_COINS
  {
  }

  lemma TotalNext(rs: seq<Receipt>, r: Receipt)
    ensures TotalOf(rs + [r]) == Add(TotalOf(rs), r.transfer)
  {
    assert (rs + [r])[..|rs|] == rs;
  }

  lemma PaidBySnoc(rs: seq<Receipt>, r: Receipt, x: Address, d: string)
    ensures PaidBy(rs + [r], x, d) == PaidBy(rs, x, d) + if x == Credit(r.tenant) then AmountOf(r.transfer, d) else 0
    ensures ReceivedBy(rs + [r], x, d) == ReceivedBy(rs, x, d) + if x == r.payout then AmountOf(r.transfer, d) else 0
  {
    assert (rs + [r])[..|rs|] == rs;
  }

  lemma {:induction false} PaidByConcat(a: seq<Receipt>, b: seq<Receipt>, x: Address, d: string)
    ensures PaidBy(a + b, x, d) == PaidBy(a, x, d) + PaidBy(b, x, d)
    ensures ReceivedBy(a + b, x, d) == ReceivedBy(a, x, d) + ReceivedBy(b, x, d)
    decreases |b|
  {
    if b == [] {
      assert a + b == a;
    } else {
      var n := |b| - 1;
      hide PaidBy, ReceivedBy;
      PaidByConcat(a, b[..n], x, d);
      assert a + b == (a + b[..n]) + [b[n]];
      assert b == b[..n] + [b[n]];
      PaidBySnoc(a + b[..n], b[n], x, d);
      PaidBySnoc(b[..n], b[n], x, d);
    }
  }

  /** The bank moved exactly as the receipts say. */
  ghost predicate Accounted(bank: Bank, rs: seq<Receipt>, bank': Bank) {
    forall a, d :: Holding(bank', a, d) == Holding(bank, a, d) - PaidBy(rs, a, d) + ReceivedBy(rs, a, d)
  }

  ghost predicate SameSupply(bank: Bank, bank': Bank) {
    forall d :: Supply(bank', d) == Supply(bank, d)
  }

  lemma NothingIsAccounted(bank: Bank)
    ensures Accounted(bank, [], bank) && SameSupply(bank, bank)
  {
    hide Holding, Supply;
  }

  lemma SettlementIsAccounted(bank: Bank, catalog: Catalog, l: Lease, at: Time, silent: bool, closed: bool)
    requires Settle(bank, catalog, l, at, silent).Ok?
    ensures var s := Settle(bank, catalog, l, at, silent).value;
            Accounted(bank, [MakeReceipt(catalog, l, at, s, closed)], s.bank) && SameSupply(bank, s.bank)
  {
    hide Settle, Holding, Supply, Payout;
    var s := Settle(bank, catalog, l, at, silent).value;
    var r := MakeReceipt(catalog, l, at, s, closed);
    assert [r][..0] == [];
    forall a, d ensures Holding(s.bank, a, d) == Holding(bank, a, d) - PaidBy([r], a, d) + ReceivedBy([r], a, d) {
      SettlePays(bank, catalog, l, at, silent, a, d);
    }
    forall d ensures Supply(s.bank, d) == Supply(bank, d) {
      SettlePays(bank, catalog, l, at, silent, l.tenant, d);
    }
  }

  lemma SetLeaseKeepsBank(st: Store, l: Lease)
    ensures SetLease(st, l).Ok? ==> SetLease(st, l).value.bank == st.bank
  {
    hide Reconcile, SkuEntries;
  }

  lemma MoveKeepsBank(st: Store, l: Lease, c: AccountChange, wrap: bool)
    ensures Move(st, l, c, wrap).Ok? ==> Move(st, l, c, wrap).value.bank == st.bank
  {
    hide SetLease, Changed;
    SetLeaseKeepsBank(st, l);
  }

  lemma FinishIsAccounted(st: Store, env: Env, l: Lease, silent: bool, reason: string, wrap: bool)
    requires Finish(st, env, l, silent, reason, wrap).Ok?
    ensures var out := Finish(st, env, l, silent, reason, wrap).value;
            Accounted(st.bank, out.receipts, out.st.bank) && SameSupply(st.bank, out.st.bank)
  {
    hide Settle, Move, Accounted, SameSupply;
    SettlementIsAccounted(st.bank, env.catalog, l, env.now, silent, true);
    var s := Settle(st.bank, env.catalog, l, env.now, silent).value;
    MoveKeepsBank(st.(bank := s.bank), ClosedLease(l, env.now, reason), DropActive(Release(st, l)), wrap);
  }

  lemma PendingIsAccounted(st: Store, now: Time, l: Lease, reason: string)
    ensures AcknowledgeOne(st, now, l).Ok? ==> AcknowledgeOne(st, now, l).value.receipts == [] && AcknowledgeOne(st, now, l).value.st.bank == st.bank
    ensures RejectOne(st, now, l, reason).Ok? ==> RejectOne(st, now, l, reason).value.receipts == [] && RejectOne(st, now, l, reason).value.st.bank == st.bank
    ensures ExpireOne(st, now, l).Ok? ==> ExpireOne(st, now, l).value.receipts == [] && ExpireOne(st, now, l).value.st.bank == st.bank
  {
    hide Move, Acknowledged, RejectedLease, ExpiredLease, Release;
    MoveKeepsBank(st, Acknowledged(l, now), Promote, true);
    MoveKeepsBank(st, RejectedLease(l, now, reason), DropPending(Release(st, l)), true);
    MoveKeepsBank(st, ExpiredLease(l, now), DropPending(Release(st, l)), false);
  }

  lemma CloseIsAccounted(st: Store, env: Env, l: Lease, reason: string)
    requires CloseOne(st, env, l, reason).Ok?
    ensures var out := CloseOne(st, env, l, reason).value;
            Accounted(st.bank, out.receipts, out.st.bank) && SameSupply(st.bank, out.st.bank)
  {
    hide Accounted, SameSupply, Finish, ShouldAutoClose;
    var exhausted := ShouldAutoClose(st.bank, l, env.now).value;
    FinishIsAccounted(st, env, l, exhausted, if exhausted then CREDIT_EXHAUSTED else reason, true);
  }

  lemma OneIsAccounted(op: Op, env: Env, st: Store, u: Uuid)
    requires One(op, env, st, u).Ok?
    ensures var out := One(op, env, st, u).value;
            Accounted(st.bank, out.receipts, out.st.bank) && SameSupply(st.bank, out.st.bank)
  {
    hide Accounted, SameSupply, AcknowledgeOne, RejectOne, ExpireOne, CloseOne, WithdrawOne, SweepOne;
    NothingIsAccounted(st.bank);
    if Strict(op, env, st, u).Ok? {
      var l := st.leases[u];
      match op
      case OpAcknowledge => PendingIsAccounted(st, env.now, l, "");
      case OpReject(reason) => PendingIsAccounted(st, env.now, l, reason);
      case OpExpire => PendingIsAccounted(st, env.now, l, "");
      case OpClose(reason) => CloseIsAccounted(st, env, l, reason);
      case OpWithdraw => WithdrawIsAccounted(st, env, l);
      case OpSweep => SweepIsAccounted(st, env, l);
    }
  }

  lemma WithdrawIsAccounted(st: Store, env: Env, l: Lease)
    requires WithdrawOne(st, env, l).Ok?
    ensures var out := WithdrawOne(st, env, l).value;
            Accounted(st.bank, out.receipts, out.st.bank) && SameSupply(st.bank, out.st.bank)
  {
    hide Settle, Accounted, SameSupply, SetLease, Finish, ShouldAutoClose;
    NothingIsAccounted(st.bank);
    if ShouldAutoClose(st.bank, l, env.now).value {
      FinishIsAccounted(st, env, l, true, CREDIT_EXHAUSTED, false);
    } else {
      var at := SettleTime(l, env.now);
      SettlementIsAccounted(st.bank, env.catalog, l, at, false, false);
      SetLeaseKeepsBank(st.(bank := Settle(st.bank, env.catalog, l, at, false).value.bank), l.(lastSettledAt := at));
    }
  }

  lemma SweepIsAccounted(st: Store, env: Env, l: Lease)
    requires SweepOne(st, env, l).Ok?
    ensures var out := SweepOne(st, env, l).value;
            Accounted(st.bank, out.receipts, out.st.bank) && SameSupply(st.bank, out.st.bank)
  {
    hide Settle, Accounted, SameSupply, SetLease, Finish, ShouldAutoClose;
    NothingIsAccounted(st.bank);
    if ShouldAutoClose(st.bank, l, env.now).value {
      FinishIsAccounted(st, env, l, true, CREDIT_EXHAUSTED, false);
    } else {
      var at := SettleTime(l, env.now);
      if at > l.lastSettledAt {
        SettlementIsAccounted(st.bank, env.catalog, l, at, true, false);
        SetLeaseKeepsBank(st.(bank := Settle(st.bank, env.catalog, l, at, true).value.bank), l.(lastSettledAt := at));
      }
    }
  }

  /** A batch of any kind: every account moves by what the receipts list for it, and the total
      supply is unchanged. */
  lemma {:induction false} BatchIsAccounted(op: Op, env: Env, st: Store, us: seq<Uuid>)
    requires Batch(op, env, st, us).Ok?
    ensures var out := Batch(op, env, st, us).value;
            Accounted(st.bank, out.receipts, out.st.bank) && SameSupply(st.bank, out.st.bank)
    decreases |us|
  {
    hide One, Holding, Supply, PaidBy, ReceivedBy;
    if us == [] {
      NothingIsAccounted(st.bank);
    } else {
      var n := |us| - 1;
      BatchIsAccounted(op, env, st, us[..n]);
      var before := Batch(op, env, st, us[..n]).value;
      var last := One(op, env, before.st, us[n]).value;
      OneIsAccounted(op, env, before.st, us[n]);
      var rs := before.receipts + last.receipts;
      forall a, d
        ensures Holding(last.st.bank, a, d) == Holding(st.bank, a, d) - PaidBy(rs, a, d) + ReceivedBy(rs, a, d)
      {
        PaidByConcat(before.receipts, last.receipts, a, d);
        assert Holding(before.st.bank, a, d) ==
               Holding(st.bank, a, d) - PaidBy(before.receipts, a, d) + ReceivedBy(before.receipts, a, d);
        assert Holding(last.st.bank, a, d) ==
               Holding(before.st.bank, a, d) - PaidBy(last.receipts, a, d) + ReceivedBy(last.receipts, a, d);
      }
      forall d ensures Supply(last.st.bank, d) == Supply(st.bank, d) {
        assert Supply(last.st.bank, d) == Supply(before.st.bank, d);
      }
    }
  }

  // ---------------------------------------------------------------- how much is drawn

  /** Providers are paid outside the credit accounts. */
  predicate PaysOutside(catalog: Catalog, l: Lease) {
    l.providerUuid in catalog.providers ==> !catalog.providers[l.providerUuid].payoutAddress.Credit?
  }

  /** Closing and withdrawing charge the time up to here. */
  function Charge(l: Lease, now: Time): Coins { DueAt(l, SettleTime(l, now)) }

  predicate Chargeable(catalog: Catalog, l: Lease, now: Time) {
    WithinLimit(l, SettleTime(l, now)) && PaysOutside(catalog, l)
  }

  lemma SettleDraws(bank: Bank, catalog: Catalog, l: Lease, at: Time, silent: bool, t: Address, d: string)
    requires Settle(bank, catalog, l, at, silent).Ok? && WithinLimit(l, at) && PaysOutside(catalog, l)
    ensures Holding(Settle(bank, catalog, l, at, silent).value.bank, Credit(t), d) ==
            Holding(bank, Credit(t), d) -
            (if t == l.tenant then Min(Holding(bank, Credit(t), d), AmountOf(DueAt(l, at), d)) else 0)
  {
    SettleTransfers(bank, catalog, l, at, silent);
    SettlePays(bank, catalog, l, at, silent, Credit(t), d);
    if l.providerUuid !in catalog.providers {
      NoProviderNoTransfer(bank, catalog, l, at, silent);
    }
    AvailableAt(bank, l, d);
    if d in DueAt(l, at) {
      DueInDenoms(l, at, d);
    }
    hide Settle, Holding, Supply, DueAt, Denoms, Available, WithinLimit;
  }

  lemma NoProviderNoTransfer(bank: Bank, catalog: Catalog, l: Lease, at: Time, silent: bool)
    requires Settle(bank, catalog, l, at, silent).Ok? && l.providerUuid !in catalog.providers
    ensures Settle(bank, catalog, l, at, silent).value.transfer == NO_COINS
  {
    hide Accrued, Available, Send, Meet, Overflows;
  }

  predicate Charges(op: Op) { op.OpClose? || op.OpWithdraw? || op.OpSweep? }

  /** What a step did to the bank: one settlement at the settlement time. */
  ghost predicate SettledOnce(out: Out, bank: Bank, catalog: Catalog, l: Lease, at: Time, silent: bool) {
    var s := Settle(bank, catalog, l, at, silent);
    && s.Ok?
    && (out.st.bank == s.value.bank || (out.st.bank == bank && s.value.accrued == NO_COINS && out.receipts == []))
  }

  lemma FinishSettles(st: Store, env: Env, l: Lease, silent: bool, reason: string, wrap: bool)
    requires Finish(st, env, l, silent, reason, wrap).Ok?
    ensures SettledOnce(Finish(st, env, l, silent, reason, wrap).value, st.bank, env.catalog, l, env.now, silent)
  {
    hide Settle, Move, ClosedLease, Release;
    var bank := Settle(st.bank, env.catalog, l, env.now, silent).value.bank;
    MoveKeepsBank(st.(bank := bank), ClosedLease(l, env.now, reason), DropActive(Release(st, l)), wrap);
  }

  lemma NoTransferNoMove(bank: Bank, catalog: Catalog, l: Lease, at: Time, silent: bool)
    requires Settle(bank, catalog, l, at, silent).Ok? && Settle(bank, catalog, l, at, silent).value.transfer == NO_COINS
    ensures Settle(bank, catalog, l, at, silent).value.bank == bank
  {
    hide Accrued, Available, Send, Meet, Overflows;
  }

  lemma ExhaustedIsActive(bank: Bank, l: Lease, now: Time)
    ensures ShouldAutoClose(bank, l, now) == Ok(true) ==> SettleTime(l, now) == now
  {
    hide Exhausted;
  }

  lemma CloseSettles(st: Store, env: Env, l: Lease, reason: string) returns (silent: bool)
    requires CloseOne(st, env, l, reason).Ok?
    ensures SettledOnce(CloseOne(st, env, l, reason).value, st.bank, env.catalog, l, SettleTime(l, env.now), silent)
  {
    hide Finish, ShouldAutoClose, SettledOnce;
    silent := ShouldAutoClose(st.bank, l, env.now).value;
    FinishSettles(st, env, l, silent, if silent then CREDIT_EXHAUSTED else reason, true);
  }

  lemma WithdrawSettles(st: Store, env: Env, l: Lease) returns (silent: bool)
    requires WithdrawOne(st, env, l).Ok?
    ensures SettledOnce(WithdrawOne(st, env, l).value, st.bank, env.catalog, l, SettleTime(l, env.now), silent)
  {
    hide Finish, ShouldAutoClose, Settle, SetLease;
    silent := ShouldAutoClose(st.bank, l, env.now).value;
    if silent {
      ExhaustedIsActive(st.bank, l, env.now);
      FinishSettles(st, env, l, true, CREDIT_EXHAUSTED, false);
    } else {
      var at := SettleTime(l, env.now);
      SetLeaseKeepsBank(st.(bank := Settle(st.bank, env.catalog, l, at, false).value.bank), l.(lastSettledAt := at));
    }
  }

  lemma NoTimeNoCharge(bank: Bank, catalog: Catalog, l: Lease, at: Time, silent: bool)
    requires at <= l.lastSettledAt
    ensures Settle(bank, catalog, l, at, silent) == Ok(Settlement(bank, NO_COINS, NO_COINS))
  {
    hide Accrued, Available, Send, Meet, Overflows;
    SaturationIsHarmless(at, l.lastSettledAt);
  }

  lemma SweepSettles(st: Store, env: Env, l: Lease) returns (silent: bool)
    requires SweepOne(st, env, l).Ok?
    ensures SettledOnce(SweepOne(st, env, l).value, st.bank, env.catalog, l, SettleTime(l, env.now), silent)
  {
    hide Finish, ShouldAutoClose, Settle, SetLease;
    silent := true;
    if ShouldAutoClose(st.bank, l, env.now).value {
      ExhaustedIsActive(st.bank, l, env.now);
      FinishSettles(st, env, l, true, CREDIT_EXHAUSTED, false);
    } else {
      var at := SettleTime(l, env.now);
      if at <= l.lastSettledAt {
        NoTimeNoCharge(st.bank, env.catalog, l, at, true);
      } else {
        var s := Settle(st.bank, env.catalog, l, at, true).value;
        if s.transfer == NO_COINS {
          NoTransferNoMove(st.bank, env.catalog, l, at, true);
        }
        SetLeaseKeepsBank(st.(bank := s.bank), l.(lastSettledAt := at));
      }
    }
  }

  /** Closing, withdrawing and sweeping settle once, at the settlement time. */
  lemma ChargeSettles(op: Op, env: Env, st: Store, u: Uuid) returns (silent: bool)
    requires Charges(op) && Strict(op, env, st, u).Ok?
    ensures u in st.leases
    ensures SettledOnce(Strict(op, env, st, u).value, st.bank, env.catalog, st.leases[u], SettleTime(st.leases[u], env.now), silent)
  {
    hide CloseOne, WithdrawOne, SweepOne, SettledOnce;
    var l := st.leases[u];
    match op
    case OpClose(reason) => silent := CloseSettles(st, env, l, reason);
    case OpWithdraw => silent := WithdrawSettles(st, env, l);
    case OpSweep => silent := SweepSettles(st, env, l);
  }

  /** One lease draws the smaller of its charge and its tenant's credit. */
  lemma OneDraws(op: Op, env: Env, st: Store, u: Uuid, t: Address, d: string)
    requires Charges(op) && Strict(op, env, st, u).Ok?
    requires u in st.leases && Chargeable(env.catalog, st.leases[u], env.now)
    ensures One(op, env, st, u) == Strict(op, env, st, u)
    ensures Holding(Strict(op, env, st, u).value.st.bank, Credit(t), d) ==
            Holding(st.bank, Credit(t), d) -
            (if t == st.leases[u].tenant then Min(Holding(st.bank, Credit(t), d), AmountOf(Charge(st.leases[u], env.now), d)) else 0)
  {
    hide Strict, Settle, Holding, DueAt, WithinLimit;
    var silent := ChargeSettles(op, env, st, u);
    var l := st.leases[u];
    var at := SettleTime(l, env.now);
    SettleDraws(st.bank, env.catalog, l, at, silent, t, d);
    SettleTransfers(st.bank, env.catalog, l, at, silent);
  }

  /** Total charge of the listed leases of one tenant. */
  function ChargeSum(leases: map<Uuid, Lease>, us: seq<Uuid>, t: Address, d: string, now: Time): nat {
    if us == [] then 0
    else
      var u := us[|us| - 1];
      ChargeSum(leases, us[..|us| - 1], t, d, now) +
      if u in leases && leases[u].tenant == t then AmountOf(Charge(leases[u], now), d) else 0
  }

  lemma ChargeOfOne(leases: map<Uuid, Lease>, u: Uuid, now: Time, d: string)
    requires u in leases
    ensures ChargeSum(leases, [u], leases[u].tenant, d, now) == AmountOf(Charge(leases[u], now), d)
  {
    hide Charge;
    assert [u][..0] == [];
  }

  lemma MinStep(balance: nat, sum: nat, charge: nat)
    ensures var rest := balance - Min(balance, sum);
            rest - Min(rest, charge) == balance - Min(balance, sum + charge)
  {
  }

  /** A Close or Withdraw batch draws, per tenant and denomination, the smaller of the sum of
      the charges and the starting balance.  The right-hand side does not mention the order. */
  lemma {:induction false} BatchDraws(op: Op, env: Env, st: Store, us: seq<Uuid>, t: Address, d: string)
    requires Indexed(st) && Charges(op) && !Lenient(op) && Distinct(us) && Batch(op, env, st, us).Ok?
    requires forall u :: u in us && u in st.leases ==> Chargeable(env.catalog, st.leases[u], env.now)
    ensures Holding(Batch(op, env, st, us).value.st.bank, Credit(t), d) ==
            Holding(st.bank, Credit(t), d) - Min(Holding(st.bank, Credit(t), d), ChargeSum(st.leases, us, t, d, env.now))
    decreases |us|
  {
    hide Indexed, Strict, Holding, Charge, Chargeable;
    if us != [] {
      var n := |us| - 1;
      var before := Batch(op, env, st, us[..n]).value;
      BatchDraws(op, env, st, us[..n], t, d);
      BatchLeavesOthers(op, env, st, us[..n], us[n]);
      var silent := ChargeSettles(op, env, before.st, us[n]);
      assert us[n] in us;
      OneDraws(op, env, before.st, us[n], t, d);
      MinStep(Holding(st.bank, Credit(t), d), ChargeSum(st.leases, us[..n], t, d, env.now),
              if st.leases[us[n]].tenant == t then AmountOf(Charge(st.leases[us[n]], env.now), d) else 0);
    }
  }

  /** A lease outside the processed prefix is still as it was. */
  lemma BatchLeavesOthers(op: Op, env: Env, st: Store, us: seq<Uuid>, u: Uuid)
    requires Indexed(st) && Batch(op, env, st, us).Ok? && u !in us
    ensures var st' := Batch(op, env, st, us).value.st;
            (u in st'.leases <==> u in st.leases) && (u in st.leases ==> st'.leases[u] == st.leases[u])
  {
    hide Indexed, Batch, Reachable.EvolvesStar, ReservedExactly;
    Reachable.BatchIsKept(op, env, st, us);
  }

  // ---------------------------------------------------------------- order of a batch

  lemma ChargeSumSnoc(leases: map<Uuid, Lease>, us: seq<Uuid>, u: Uuid, t: Address, d: string, now: Time)
    ensures ChargeSum(leases, us + [u], t, d, now) == ChargeSum(leases, us, t, d, now) + ChargeSum(leases, [u], t, d, now)
  {
    hide Charge;
    assert (us + [u])[..|us|] == us;
    assert [u][..0] == [];
  }

  lemma {:induction false} ChargeSumSplit(leases: map<Uuid, Lease>, a: seq<Uuid>, u: Uuid, b: seq<Uuid>, t: Address, d: string, now: Time)
    ensures ChargeSum(leases, a + [u] + b, t, d, now) == ChargeSum(leases, a + b, t, d, now) + ChargeSum(leases, [u], t, d, now)
    decreases |b|
  {
    hide Charge, ChargeSum;
    if b == [] {
      assert a + [u] + b == a + [u] && a + b == a;
      ChargeSumSnoc(leases, a, u, t, d, now);
    } else {
      var n := |b| - 1;
      ChargeSumSplit(leases, a, u, b[..n], t, d, now);
      assert a + [u] + b == (a + [u] + b[..n]) + [b[n]];
      assert a + b == (a + b[..n]) + [b[n]];
      ChargeSumSnoc(leases, a + [u] + b[..n], b[n], t, d, now);
      ChargeSumSnoc(leases, a + b[..n], b[n], t, d, now);
    }
  }

  /** Permuting the batch does not change the sums. */
  lemma {:induction false} ChargeSumPermuted(leases: map<Uuid, Lease>, us: seq<Uuid>, vs: seq<Uuid>, t: Address, d: string, now: Time)
    requires multiset(us) == multiset(vs)
    ensures ChargeSum(leases, us, t, d, now) == ChargeSum(leases, vs, t, d, now)
    decreases |us|
  {
    hide Charge, ChargeSum;
    assert |us| == |multiset(us)| == |multiset(vs)| == |vs|;
    if us != [] {
      var n := |us| - 1;
      assert us == us[..n] + [us[n]] + [];
      assert us[n] in multiset(vs);
      var j :| 0 <= j < |vs| && vs[j] == us[n];
      var rest := vs[..j] + vs[j + 1..];
      assert vs == vs[..j] + [vs[j]] + vs[j + 1..];
      assert multiset(us[..n]) == multiset(us) - multiset{us[n]} == multiset(rest);
      ChargeSumPermuted(leases, us[..n], rest, t, d, now);
      ChargeSumSplit(leases, us[..n], us[n], [], t, d, now);
      ChargeSumSplit(leases, vs[..j], vs[j], vs[j + 1..], t, d, now);
      assert us[..n] + [] == us[..n];
    } else {
      assert us == vs;
    }
  }

  /** Two orders of the same batch leave every credit account with the same balance. */
  lemma BatchOrderIsIrrelevant(op: Op, env: Env, st: Store, us: seq<Uuid>, vs: seq<Uuid>, t: Address, d: string)
    requires Indexed(st) && Charges(op) && !Lenient(op) && Distinct(us) && Distinct(vs) && multiset(us) == multiset(vs)
    requires Batch(op, env, st, us).Ok? && Batch(op, env, st, vs).Ok?
    requires forall u :: u in us && u in st.leases ==> Chargeable(env.catalog, st.leases[u], env.now)
    ensures Holding(Batch(op, env, st, us).value.st.bank, Credit(t), d) == Holding(Batch(op, env, st, vs).value.st.bank, Credit(t), d)
  {
    hide Indexed, Batch, Holding, Chargeable, ChargeSum;
    forall u | u in vs && u in st.leases ensures Chargeable(env.catalog, st.leases[u], env.now) {
      assert u in multiset(vs);
    }
    BatchDraws(op, env, st, us, t, d);
    BatchDraws(op, env, st, vs, t, d);
    ChargeSumPermuted(st.leases, us, vs, t, d, env.now);
  }

  // ---------------------------------------------------------------- no shortfall without closure

  lemma NotExhaustedMeans(bank: Bank, l: Lease, now: Time)
    requires !Exhausted(bank, l, now)
    ensures WithinLimit(l, now)
    ensures forall d :: d in DueAt(l, now) ==> DueAt(l, now)[d] < AmountOf(Available(bank, l), d)
  {
    hide Accrued, Available, Overflows;
    SaturationIsHarmless(now, l.lastSettledAt);
  }

  lemma MeetBelow(a: Coins, b: Coins)
    requires forall d :: d in a ==> a[d] < AmountOf(b, d)
    ensures Meet(a, b) == a
  {
    CoinsEqual(Meet(a, b), a);
  }

  /** What a settlement does while the credit is not exhausted: it pays the whole charge and
      leaves something in every charged denomination. */
  lemma FullSettlement(bank: Bank, catalog: Catalog, l: Lease, now: Time, silent: bool, d: string)
    requires !Exhausted(bank, l, now) && Settle(bank, catalog, l, now, silent).Ok?
    ensures var s := Settle(bank, catalog, l, now, silent).value;
            && s.accrued == DueAt(l, now) && s.transfer == s.accrued
            && (d in s.accrued ==> Holding(s.bank, Credit(l.tenant), d) > 0)
  {
    NotExhaustedMeans(bank, l, now);
    SettleTransfers(bank, catalog, l, now, silent);
    MeetBelow(DueAt(l, now), Available(bank, l));
    SettlePays(bank, catalog, l, now, silent, Credit(l.tenant), d);
    AvailableAt(bank, l, d);
    hide Settle, Exhausted, DueAt, Available, Holding, Supply, WithinLimit;
  }

  /** Receipts that settle the charge in full and leave credit behind. */
  ghost predicate InFull(rs: seq<Receipt>, bank: Bank) {
    forall r :: r in rs ==> r.transfer == r.accrued && forall d :: d in r.accrued ==> Holding(bank, Credit(r.tenant), d) > 0
  }

  lemma FullSettlementInFull(bank: Bank, catalog: Catalog, l: Lease, now: Time, silent: bool, closed: bool)
    requires !Exhausted(bank, l, now) && Settle(bank, catalog, l, now, silent).Ok?
    ensures var s := Settle(bank, catalog, l, now, silent).value;
            InFull([MakeReceipt(catalog, l, now, s, closed)], s.bank)
  {
    hide Settle, Exhausted, Holding;
    var s := Settle(bank, catalog, l, now, silent).value;
    forall d | d in s.accrued ensures Holding(s.bank, Credit(l.tenant), d) > 0 {
      FullSettlement(bank, catalog, l, now, silent, d);
    }
    FullSettlement(bank, catalog, l, now, silent, "");
  }

  /** A settlement that leaves the lease active pays its whole charge and leaves a positive
      balance; paying less happens only in a step that ends with the lease closed. */
  lemma NoShortfallWithoutClosure(op: Op, env: Env, st: Store, u: Uuid)
    requires Indexed(st) && One(op, env, st, u).Ok?
    requires u in One(op, env, st, u).value.st.leases && One(op, env, st, u).value.st.leases[u].state == Active
    ensures InFull(One(op, env, st, u).value.receipts, One(op, env, st, u).value.st.bank)
  {
    OneIsKept(op, env, st, u);
    var out := One(op, env, st, u).value;
    if out.receipts != [] {
      var l := st.leases[u];
      FiledUnderKey(st, u);
      StillActiveSettlement(op, env, st, u);
    }
  }

  lemma StillActiveSettlement(op: Op, env: Env, st: Store, u: Uuid)
    requires Indexed(st) && One(op, env, st, u).Ok? && One(op, env, st, u).value.receipts != []
    requires u in st.leases && st.leases[u].uuid == u
    requires u in One(op, env, st, u).value.st.leases && One(op, env, st, u).value.st.leases[u].state == Active
    ensures InFull(One(op, env, st, u).value.receipts, One(op, env, st, u).value.st.bank)
  {
    hide Indexed, Settle, Move, SetLease, Exhausted, InFull, Finish;
    var l := st.leases[u];
    if ShouldAutoClose(st.bank, l, env.now).Ok? && ShouldAutoClose(st.bank, l, env.now).value {
      FinishIsKept(st, env, l, true, CREDIT_EXHAUSTED, op.OpClose?);
      assert false;
    } else if op.OpClose? {
      FinishIsKept(st, env, l, false, op.reason, true);
      assert false;
    } else {
      var silent := op.OpSweep?;
      var at := SettleTime(l, env.now);
      var s := Settle(st.bank, env.catalog, l, at, silent).value;
      SettledIsKept(st, s.bank, l, at);
      SetLeaseKeepsBank(st.(bank := s.bank), l.(lastSettledAt := at));
      assert l.state == Active;
      FullSettlementInFull(st.bank, env.catalog, l, env.now, silent, false);
    }
  }
}
