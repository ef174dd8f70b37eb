/** The reported total of a batch against the balances: it is what the tenants' credit addresses
    lost together and what the providers' payout addresses gained together. */
module Conservation {
  import opened Coins
  import opened Types
  import opened Sums
  import opened Ledger
  import opened Invariants
  import opened Reachable
  import opened Payments

  // ---------------------------------------------------------------- sums over sets of accounts

  function Each(accounts: set<Address>): map<Address, Address> { map a | a in accounts :: a }

  ghost function HoldingIn(bank: Bank, d: string): Address -> nat { (a: Address) => Holding(bank, a, d) }

  ghost function PaidIn(rs: seq<Receipt>, d: string): Address -> nat { (a: Address) => PaidBy(rs, a, d) }

  ghost function ReceivedIn(rs: seq<Receipt>, d: string): Address -> nat { (a: Address) => ReceivedBy(rs, a, d) }

  ghost function Only(x: Address, n: nat): Address -> nat { (a: Address) => if a == x then n else 0 }

  /** What the accounts hold together. */
  ghost function HeldBy(bank: Bank, accounts: set<Address>, d: string): nat {
    Sum(Each(accounts), HoldingIn(bank, d))
  }

  lemma SumOnly(accounts: set<Address>, x: Address, n: nat)
    ensures Sum(Each(accounts), Only(x, n)) == if x in accounts then n else 0
  {
    var m := Each(accounts);
    if x in accounts {
      SumRemove(m, Only(x, n), x);
      SumZero(m - {x}, Only(x, n));
    } else {
      SumZero(m, Only(x, n));
    }
  }

  /** A receipt between the two sets: drawn inside the first and, if anything moved, paid inside
      the second. */
  predicate Between(r: Receipt, payers: set<Address>, payees: set<Address>) {
    Credit(r.tenant) in payers && (r.transfer != NO_COINS ==> r.payout in payees)
  }

  lemma SidesNext(rs: seq<Receipt>, r: Receipt, payers: set<Address>, payees: set<Address>, d: string)
    requires Between(r, payers, payees)
    ensures Sum(Each(payers), PaidIn(rs + [r], d)) == Sum(Each(payers), PaidIn(rs, d)) + AmountOf(r.transfer, d)
    ensures Sum(Each(payees), ReceivedIn(rs + [r], d)) == Sum(Each(payees), ReceivedIn(rs, d)) + AmountOf(r.transfer, d)
  {
    hide Sum, PaidBy, ReceivedBy;
    var n := AmountOf(r.transfer, d);
    forall a ensures PaidIn(rs + [r], d)(a) == PaidIn(rs, d)(a) + Only(Credit(r.tenant), n)(a)
                  && ReceivedIn(rs + [r], d)(a) == ReceivedIn(rs, d)(a) + Only(r.payout, n)(a) {
      PaidBySnoc(rs, r, a, d);
    }
    SumPlus(Each(payers), PaidIn(rs + [r], d), PaidIn(rs, d), Only(Credit(r.tenant), n));
    SumPlus(Each(payees), ReceivedIn(rs + [r], d), ReceivedIn(rs, d), Only(r.payout, n));
    SumOnly(payers, Credit(r.tenant), n);
    SumOnly(payees, r.payout, n);
  }

  lemma NoSides(payers: set<Address>, payees: set<Address>, d: string)
    ensures Sum(Each(payers), PaidIn([], d)) == 0 && Sum(Each(payees), ReceivedIn([], d)) == 0
  {
    SumZero(Each(payers), PaidIn([], d));
    SumZero(Each(payees), ReceivedIn([], d));
  }

  /** Adding up receipts by payer or by payee gives their total. */
  lemma {:induction false} ReceiptsBySide(rs: seq<Receipt>, payers: set<Address>, payees: set<Address>, d: string)
    requires forall r :: r in rs ==> Between(r, payers, payees)
    ensures Sum(Each(payers), PaidIn(rs, d)) == AmountOf(TotalOf(rs), d)
    ensures Sum(Each(payees), ReceivedIn(rs, d)) == AmountOf(TotalOf(rs), d)
    decreases |rs|
  {
    hide Sum, Between, PaidIn, ReceivedIn, Each, TotalOf;
    if rs == [] {
      TotalNone();
      NoSides(payers, payees, d);
    } else {
      var n := |rs| - 1;
      assert rs[n] in rs && forall r :: r in rs[..n] ==> r in rs;
      ReceiptsBySide(rs[..n], payers, payees, d);
      assert rs == rs[..n] + [rs[n]];
      SidesNext(rs[..n], rs[n], payers, payees, d);
      TotalNext(rs[..n], rs[n]);
    }
  }

  // ---------------------------------------------------------------- whose receipts a batch writes

  /** A receipt of lease `u`, as stored before the batch. */
  predicate ReceiptOf(r: Receipt, catalog: Catalog, leases: map<Uuid, Lease>, u: Uuid) {
    && u in leases && r.uuid == u && r.tenant == leases[u].tenant && r.payout == Payout(catalog, leases[u])
    && (leases[u].providerUuid !in catalog.providers ==> r.transfer == NO_COINS)
  }

  lemma MadeReceipt(bank: Bank, catalog: Catalog, leases: map<Uuid, Lease>, l: Lease, at: Time, silent: bool, closed: bool)
    requires l.uuid in leases && leases[l.uuid] == l && Settle(bank, catalog, l, at, silent).Ok?
    ensures ReceiptOf(MakeReceipt(catalog, l, at, Settle(bank, catalog, l, at, silent).value, closed), catalog, leases, l.uuid)
  {
    hide Settle, Payout;
    if l.providerUuid !in catalog.providers {
      NoProviderNoTransfer(bank, catalog, l, at, silent);
    }
  }

  lemma FinishReceipts(st: Store, env: Env, l: Lease, silent: bool, reason: string, wrap: bool)
    requires l.uuid in st.leases && st.leases[l.uuid] == l && Finish(st, env, l, silent, reason, wrap).Ok?
    ensures forall r :: r in Finish(st, env, l, silent, reason, wrap).value.receipts ==> ReceiptOf(r, env.catalog, st.leases, l.uuid)
  {
    hide Settle, Move, ReceiptOf, MakeReceipt, Release, ClosedLease;
    MadeReceipt(st.bank, env.catalog, st.leases, l, env.now, silent, true);
  }

  lemma WithdrawReceipts(st: Store, env: Env, l: Lease)
    requires l.uuid in st.leases && st.leases[l.uuid] == l
    ensures WithdrawOne(st, env, l).Ok? ==>
              forall r :: r in WithdrawOne(st, env, l).value.receipts ==> ReceiptOf(r, env.catalog, st.leases, l.uuid)
    ensures SweepOne(st, env, l).Ok? ==>
              forall r :: r in SweepOne(st, env, l).value.receipts ==> ReceiptOf(r, env.catalog, st.leases, l.uuid)
  {
    hide Settle, SetLease, Finish, ShouldAutoClose, ReceiptOf, MakeReceipt;
    var at := SettleTime(l, env.now);
    if Finish(st, env, l, true, CREDIT_EXHAUSTED, false).Ok? {
      FinishReceipts(st, env, l, true, CREDIT_EXHAUSTED, false);
    }
    if Settle(st.bank, env.catalog, l, at, false).Ok? {
      MadeReceipt(st.bank, env.catalog, st.leases, l, at, false, false);
    }
    if Settle(st.bank, env.catalog, l, at, true).Ok? {
      MadeReceipt(st.bank, env.catalog, st.leases, l, at, true, false);
    }
  }

  lemma CloseReceipts(st: Store, env: Env, l: Lease, reason: string)
    requires l.uuid in st.leases && st.leases[l.uuid] == l && CloseOne(st, env, l, reason).Ok?
    ensures forall r :: r in CloseOne(st, env, l, reason).value.receipts ==> ReceiptOf(r, env.catalog, st.leases, l.uuid)
  {
    hide Finish, ShouldAutoClose, ReceiptOf;
    var exhausted := ShouldAutoClose(st.bank, l, env.now).value;
    FinishReceipts(st, env, l, exhausted, if exhausted then CREDIT_EXHAUSTED else reason, true);
  }

  lemma OneReceipts(op: Op, env: Env, st: Store, u: Uuid)
    requires Indexed(st) && One(op, env, st, u).Ok?
    ensures forall r :: r in One(op, env, st, u).value.receipts ==> ReceiptOf(r, env.catalog, st.leases, u)
  {
    hide Indexed, AcknowledgeOne, RejectOne, ExpireOne, CloseOne, WithdrawOne, SweepOne, ReceiptOf;
    if Strict(op, env, st, u).Ok? {
      FiledUnderKey(st, u);
      var l := st.leases[u];
      match op
      case OpAcknowledge => PendingIsAccounted(st, env.now, l, "");
      case OpReject(reason) => PendingIsAccounted(st, env.now, l, reason);
      case OpExpire => PendingIsAccounted(st, env.now, l, "");
      case OpClose(reason) => CloseReceipts(st, env, l, reason);
      case OpWithdraw => WithdrawReceipts(st, env, l);
      case OpSweep => WithdrawReceipts(st, env, l);
    }
  }

  lemma ReceiptOfEarlier(r: Receipt, catalog: Catalog, leases: map<Uuid, Lease>, us: seq<Uuid>, leases': map<Uuid, Lease>, u: Uuid)
    requires OnlyEvolved(leases, us, leases') && ReceiptOf(r, catalog, leases', u)
    ensures ReceiptOf(r, catalog, leases, u)
  {
    assert u in leases && EvolvesStar(leases[u], leases'[u]);
  }

  /** Every receipt of a batch belongs to one of its leases, with that lease's tenant and payout. */
  lemma {:induction false} BatchReceipts(op: Op, env: Env, st: Store, us: seq<Uuid>)
    requires Indexed(st) && Batch(op, env, st, us).Ok?
    ensures forall r :: r in Batch(op, env, st, us).value.receipts ==> r.uuid in us && ReceiptOf(r, env.catalog, st.leases, r.uuid)
    decreases |us|
  {
    hide Indexed, ReservedExactly, One, ReceiptOf, OnlyEvolved;
    if us != [] {
      var n := |us| - 1;
      BatchReceipts(op, env, st, us[..n]);
      BatchIsKept(op, env, st, us[..n]);
      var before := Batch(op, env, st, us[..n]).value;
      OneReceipts(op, env, before.st, us[n]);
      var last := One(op, env, before.st, us[n]).value;
      assert forall u :: u in us[..n] ==> u in us;
      forall r | r in last.receipts ensures r.uuid in us && ReceiptOf(r, env.catalog, st.leases, r.uuid) {
        ReceiptOfEarlier(r, env.catalog, st.leases, us[..n], before.st.leases, us[n]);
        ReceiptNames(r, env.catalog, st.leases, us[n]);
        assert us[n] in us;
      }
    }
  }

  lemma ReceiptNames(r: Receipt, catalog: Catalog, leases: map<Uuid, Lease>, u: Uuid)
    requires ReceiptOf(r, catalog, leases, u)
    ensures r.uuid == u
  {
  }

  // ---------------------------------------------------------------- the total and the balances

  /** The credit addresses of the tenants of the listed leases. */
  function Payers(leases: map<Uuid, Lease>, us: seq<Uuid>): set<Address> {
    set u | u in us && u in leases :: Credit(leases[u].tenant)
  }

  /** The payout addresses of their providers. */
  function Payees(catalog: Catalog, leases: map<Uuid, Lease>, us: seq<Uuid>): set<Address> {
    set u | u in us && u in leases && leases[u].providerUuid in catalog.providers :: catalog.providers[leases[u].providerUuid].payoutAddress
  }

  predicate AllPayOutside(catalog: Catalog, leases: map<Uuid, Lease>, us: seq<Uuid>) {
    forall u :: u in us && u in leases ==> PaysOutside(catalog, leases[u])
  }

  lemma ReceiptIsBetween(r: Receipt, catalog: Catalog, leases: map<Uuid, Lease>, us: seq<Uuid>)
    requires r.uuid in us && ReceiptOf(r, catalog, leases, r.uuid)
    ensures Between(r, Payers(leases, us), Payees(catalog, leases, us))
  {
    assert Credit(leases[r.uuid].tenant) in Payers(leases, us);
    if leases[r.uuid].providerUuid in catalog.providers {
      assert catalog.providers[leases[r.uuid].providerUuid].payoutAddress in Payees(catalog, leases, us);
    }
  }

  lemma {:induction false} PayersReceiveNothing(rs: seq<Receipt>, payers: set<Address>, payees: set<Address>, a: Address, d: string)
    requires (forall r :: r in rs ==> Between(r, payers, payees)) && a !in payees
    ensures ReceivedBy(rs, a, d) == 0
    decreases |rs|
  {
    if rs != [] {
      var n := |rs| - 1;
      assert rs[n] in rs && forall r :: r in rs[..n] ==> r in rs;
      PayersReceiveNothing(rs[..n], payers, payees, a, d);
    }
  }

  lemma {:induction false} PayeesPayNothing(rs: seq<Receipt>, payers: set<Address>, payees: set<Address>, a: Address, d: string)
    requires (forall r :: r in rs ==> Between(r, payers, payees)) && a !in payers
    ensures PaidBy(rs, a, d) == 0
    decreases |rs|
  {
    if rs != [] {
      var n := |rs| - 1;
      assert rs[n] in rs && forall r :: r in rs[..n] ==> r in rs;
      PayeesPayNothing(rs[..n], payers, payees, a, d);
    }
  }

  lemma SidesAreDisjoint(catalog: Catalog, leases: map<Uuid, Lease>, us: seq<Uuid>, a: Address)
    requires AllPayOutside(catalog, leases, us)
    ensures a in Payers(leases, us) ==> a !in Payees(catalog, leases, us)
  {
  }

  /** With payouts outside the credit accounts, the total a batch reports is exactly what the
      credit addresses of its tenants lost together and what the payout addresses of its
      providers gained together, in every denomination, and nobody else's balance moved. */
  lemma TotalIsMoved(op: Op, env: Env, st: Store, us: seq<Uuid>, d: string)
    requires Indexed(st) && Batch(op, env, st, us).Ok? && AllPayOutside(env.catalog, st.leases, us)
    ensures var out := Batch(op, env, st, us).value;
            var payers, payees := Payers(st.leases, us), Payees(env.catalog, st.leases, us);
            && HeldBy(st.bank, payers, d) - HeldBy(out.st.bank, payers, d) == AmountOf(TotalOf(out.receipts), d)
            && HeldBy(out.st.bank, payees, d) - HeldBy(st.bank, payees, d) == AmountOf(TotalOf(out.receipts), d)
            && forall a :: a !in payers && a !in payees ==> Holding(out.st.bank, a, d) == Holding(st.bank, a, d)
  {
    hide Indexed, Batch, Payers, Payees, AllPayOutside, ReceiptOf, Between, Holding, PaidBy, ReceivedBy, TotalOf, Sum, SameSupply;
    var out := Batch(op, env, st, us).value;
    var rs := out.receipts;
    var payers, payees := Payers(st.leases, us), Payees(env.catalog, st.leases, us);
    BatchReceipts(op, env, st, us);
    forall r | r in rs ensures Between(r, payers, payees) {
      ReceiptIsBetween(r, env.catalog, st.leases, us);
    }
    BatchIsAccounted(op, env, st, us);
    forall a
      ensures a in payers ==> Holding(st.bank, a, d) == Holding(out.st.bank, a, d) + PaidBy(rs, a, d)
      ensures a in payees ==> Holding(out.st.bank, a, d) == Holding(st.bank, a, d) + ReceivedBy(rs, a, d)
      ensures a !in payers && a !in payees ==> Holding(out.st.bank, a, d) == Holding(st.bank, a, d)
    {
      SidesAreDisjoint(env.catalog, st.leases, us, a);
      if a !in payees {
        PayersReceiveNothing(rs, payers, payees, a, d);
      }
      if a !in payers {
        PayeesPayNothing(rs, payers, payees, a, d);
      }
      assert Holding(out.st.bank, a, d) == Holding(st.bank, a, d) - PaidBy(rs, a, d) + ReceivedBy(rs, a, d);
    }
    ReceiptsBySide(rs, payers, payees, d);
    SumPlus(Each(payers), HoldingIn(st.bank, d), HoldingIn(out.st.bank, d), PaidIn(rs, d));
    SumPlus(Each(payees), HoldingIn(out.st.bank, d), HoldingIn(st.bank, d), ReceivedIn(rs, d));
  }

  /** The same for the messages: what a successful close, withdrawal or sweep reports as its
      total has left the tenants' credit and reached the providers. */
  lemma MessageTotalIsMoved(env: Env, st: Store, ev: Event, d: string)
    requires Indexed(st) && IsBatch(ev) && Handle(env, st, ev).Ok?
    requires AllPayOutside(env.catalog, st.leases, BatchTargets(env, st, ev))
    ensures var out := Handle(env, st, ev).value;
            var us := BatchTargets(env, st, ev);
            var payers, payees := Payers(st.leases, us), Payees(env.catalog, st.leases, us);
            && HeldBy(st.bank, payers, d) - HeldBy(out.st.bank, payers, d) == AmountOf(TotalOf(out.receipts), d)
            && HeldBy(out.st.bank, payees, d) - HeldBy(st.bank, payees, d) == AmountOf(TotalOf(out.receipts), d)
  {
    hide Indexed, Handle, Batch, BatchTargets, AllPayOutside, Payers, Payees, HeldBy, TotalOf, Holding;
    HandleIsBatch(env, st, ev);
    TotalIsMoved(BatchOp(ev), env, st, BatchTargets(env, st, ev), d);
  }
}
