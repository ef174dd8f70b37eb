/** The minimum duration a reservation pays for.  A lease that runs past its own minimum draws on
    credit that other reservations of its tenant rely on; while no lease of the tenant does, the
    balance covers what the reservations of all of them still promise. */
module MinimumDuration {
  import opened Coins
  import opened Types
  import opened Reservations
  import opened Accrual
  import opened Sums
  import opened DomainIndex
  import opened Ledger
  import opened Invariants
  import opened Reachable
  import opened Payments
  import opened Conservation
  import opened Lifetime
  import opened Billing
  import opened Guarantees
  import opened Names
  import UuidV7

  // ---------------------------------------------------------------- what is still promised

  /** Reserved seconds of the lease that have not been charged. */
  function SecondsLeft(l: Lease, min: nat, rs: seq<Receipt>): nat {
    var reserved, charged := ReservedDuration(l, min), SecondsOf(rs, l.uuid);
    if reserved > charged then reserved - charged else 0
  }

  function PromisedTo(t: Address, d: string, min: nat, rs: seq<Receipt>): Lease -> nat {
    (l: Lease) => if l.tenant == t && Live(l) then Rate(l.items, d) * SecondsLeft(l, min, rs) else 0
  }

  /** The balance covers the uncharged reserved seconds of all live leases of the tenant. */
  ghost predicate Backed(st: Store, rs: seq<Receipt>, t: Address, d: string) {
    Holding(st.bank, Credit(t), d) >= Sum(st.leases, PromisedTo(t, d, st.params.minLeaseDuration, rs))
  }

  /** Every lease of the tenant has been charged for at most its reserved seconds. */
  ghost predicate Modest(leases: map<Uuid, Lease>, rs: seq<Receipt>, t: Address, min: nat) {
    forall u :: u in leases && leases[u].tenant == t ==>
      WithinFor(rs, u) && SecondsOf(rs, u) <= ReservedDuration(leases[u], min)
  }

  lemma {:induction false} SecondsGrow(rs: seq<Receipt>, more: seq<Receipt>, u: Uuid)
    ensures SecondsOf(rs, u) <= SecondsOf(rs + more, u)
    ensures WithinFor(rs + more, u) ==> WithinFor(rs, u)
    decreases |more|
  {
    assert forall r :: r in rs ==> r in rs + more;
    if more == [] {
      assert rs + more == rs;
    } else {
      var n := |more| - 1;
      SecondsGrow(rs, more[..n], u);
      assert rs + more == (rs + more[..n]) + [more[n]];
      Snoc(rs + more[..n], more[n], u, "");
    }
  }

  /** What holds of more receipts holds of fewer, and of the same leases at an earlier time. */
  lemma ModestEarlier(leases: map<Uuid, Lease>, rs: seq<Receipt>, us: seq<Uuid>, leases': map<Uuid, Lease>, more: seq<Receipt>, t: Address, min: nat)
    requires OnlyEvolved(leases, us, leases') && Modest(leases', rs + more, t, min)
    ensures Modest(leases, rs, t, min)
  {
    hide SecondsOf, WithinFor;
    forall u | u in leases && leases[u].tenant == t ensures WithinFor(rs, u) && SecondsOf(rs, u) <= ReservedDuration(leases[u], min) {
      assert EvolvesStar(leases[u], leases'[u]);
      SecondsGrow(rs, more, u);
    }
  }

  // ---------------------------------------------------------------- one settlement

  lemma OthersKeepTheirSeconds(leases: map<Uuid, Lease>, u: Uuid, rs: seq<Receipt>, r: Receipt, t: Address, d: string, min: nat)
    requires LeasesFiled(leases) && u in leases && r.uuid == u
    ensures Sum(leases - {u}, PromisedTo(t, d, min, rs + [r])) == Sum(leases - {u}, PromisedTo(t, d, min, rs))
  {
    hide Sum, Rate, SecondsOf;
    var w, w' := PromisedTo(t, d, min, rs + [r]), PromisedTo(t, d, min, rs);
    forall v | v in leases - {u} ensures w((leases - {u})[v]) == w'((leases - {u})[v]) {
      assert leases[v].uuid == v != u;
      Snoc(rs, r, v, d);
    }
    SumSame(leases - {u}, w, w');
  }

  lemma LeftAfter(rate: nat, reserved: nat, charged: nat, gap: nat, paid: nat)
    requires paid <= rate * gap && charged + gap <= reserved
    ensures rate * (reserved - (charged + gap)) + paid <= rate * (reserved - charged)
  {
    assert rate * (reserved - charged) == rate * (reserved - charged - gap) + rate * gap;
  }

  lemma BridgeFacts(r: Receipt, l: Lease, l': Lease, d: string)
    requires Bridges(r, l, l') && Seconds(Sub(r.to, r.from)) <= MAX_DURATION_SECONDS
    ensures l.state == Active && l'.items == l.items && AmountOf(r.transfer, d) <= Rate(l.items, d) * GapSeconds(r)
  {
    hide Rate, GapSeconds, Seconds, Sub;
  }

  lemma SameDuration(l: Lease, l': Lease, min: nat)
    requires l'.minLeaseDurationAtCreation == l.minLeaseDurationAtCreation
    ensures ReservedDuration(l', min) == ReservedDuration(l, min)
  {
  }

  /** The settled lease's share shrinks by at least what it paid. */
  lemma ShareShrinks(l: Lease, l': Lease, rs: seq<Receipt>, r: Receipt, t: Address, d: string, min: nat)
    requires Bridges(r, l, l') && r.uuid == l.uuid && l'.uuid == l.uuid && l'.tenant == l.tenant
    requires l'.minLeaseDurationAtCreation == l.minLeaseDurationAtCreation && l.tenant == t
    requires WithinFor(rs + [r], l.uuid) && SecondsOf(rs + [r], l.uuid) <= ReservedDuration(l, min)
    ensures PromisedTo(t, d, min, rs + [r])(l') + AmountOf(r.transfer, d) <= PromisedTo(t, d, min, rs)(l)
  {
    hide SecondsOf, WithinFor, Rate, CountOf, PaidFor, FullFor, Bridges, GapSeconds, ReservedDuration, Seconds, Sub;
    Snoc(rs, r, l.uuid, d);
    BridgeFacts(r, l, l', d);
    assert ReservedDuration(l', min) == ReservedDuration(l, min) by { SameDuration(l, l', min); }
    LeftAfter(Rate(l.items, d), ReservedDuration(l, min), SecondsOf(rs, l.uuid), GapSeconds(r), AmountOf(r.transfer, d));
  }

  lemma SettlementKeepsBacked(leases: map<Uuid, Lease>, u: Uuid, l': Lease, rs: seq<Receipt>, r: Receipt, t: Address, d: string, min: nat)
    requires LeasesFiled(leases) && u in leases && Bridges(r, leases[u], l') && r.uuid == u
    requires SameContract(leases[u], l') && r.tenant == leases[u].tenant
    requires Modest(leases[u := l'], rs + [r], t, min)
    ensures Sum(leases[u := l'], PromisedTo(t, d, min, rs + [r])) + (if r.tenant == t then AmountOf(r.transfer, d) else 0)
            <= Sum(leases, PromisedTo(t, d, min, rs))
  {
    hide Sum, SecondsOf, WithinFor, Rate, Bridges, Fair;
    var w, w' := PromisedTo(t, d, min, rs), PromisedTo(t, d, min, rs + [r]);
    SumRemove(leases, w, u);
    SumRemove(leases[u := l'], w', u);
    assert leases[u := l'] - {u} == leases - {u};
    OthersKeepTheirSeconds(leases, u, rs, r, t, d, min);
    if leases[u].tenant == t {
      assert u in leases[u := l'] && leases[u := l'][u].tenant == t;
      ShareShrinks(leases[u], l', rs, r, t, d, min);
    }
  }

  lemma PendingKeepsBacked(leases: map<Uuid, Lease>, u: Uuid, l': Lease, rs: seq<Receipt>, t: Address, d: string, min: nat)
    requires u in leases && leases[u].state == Pending && SameContract(leases[u], l')
    ensures Sum(leases[u := l'], PromisedTo(t, d, min, rs)) <= Sum(leases, PromisedTo(t, d, min, rs))
  {
    hide Sum, SecondsOf, Rate;
    SumUpdate(leases, PromisedTo(t, d, min, rs), u, l');
  }

  // ---------------------------------------------------------------- batches

  lemma PaidByOne(r: Receipt, a: Address, d: string)
    ensures PaidBy([r], a, d) == if a == Credit(r.tenant) then AmountOf(r.transfer, d) else 0
  {
    assert [r][..0] == [];
  }

  lemma BankAfterOne(op: Op, env: Env, st: Store, u: Uuid, t: Address, d: string)
    requires Indexed(st) && One(op, env, st, u).Ok?
    ensures var out := One(op, env, st, u).value;
            && (out.receipts == [] ==> Holding(out.st.bank, Credit(t), d) >= Holding(st.bank, Credit(t), d))
            && (|out.receipts| == 1 ==>
                  Holding(out.st.bank, Credit(t), d) + (if out.receipts[0].tenant == t then AmountOf(out.receipts[0].transfer, d) else 0)
                  >= Holding(st.bank, Credit(t), d))
  {
    hide One, Indexed, Holding, SameSupply, ReceivedBy;
    OneIsAccounted(op, env, st, u);
    var out := One(op, env, st, u).value;
    assert Holding(out.st.bank, Credit(t), d) == Holding(st.bank, Credit(t), d) - PaidBy(out.receipts, Credit(t), d) + ReceivedBy(out.receipts, Credit(t), d);
    if |out.receipts| == 1 {
      assert out.receipts == [out.receipts[0]];
      PaidByOne(out.receipts[0], Credit(t), d);
    }
  }

  /** The store after one step of a batch, read as a trace. */
  lemma OneKeepsBacked(op: Op, env: Env, st: Store, rs: seq<Receipt>, u: Uuid, t: Address, d: string)
    requires Indexed(st) && Timely(st.leases, env.now) && One(op, env, st, u).Ok? && Backed(st, rs, t, d)
    requires var out := One(op, env, st, u).value; Modest(out.st.leases, rs + out.receipts, t, st.params.minLeaseDuration)
    ensures Backed(One(op, env, st, u).value.st, rs + One(op, env, st, u).value.receipts, t, d)
  {
    hide One, Indexed, Timely, ReservedExactly, Holding, Sum, Modest, Bridges, SecondsOf, ReceiptOf, StartsOrEnds, PromisedTo;
    var out := One(op, env, st, u).value;
    OneTraces(op, env, st, u);
    OneIsKept(op, env, st, u);
    OneReceipts(op, env, st, u);
    BankAfterOne(op, env, st, u, t, d);
    FiledOf(st);
    if out.receipts == [] {
      assert rs + out.receipts == rs;
      if out.st.leases != st.leases {
        PendingKeepsBacked(st.leases, u, out.st.leases[u], rs, t, d, st.params.minLeaseDuration);
      }
    } else {
      var r := out.receipts[0];
      assert out.receipts == [r];
      ReceiptTenant(r, env.catalog, st.leases, u);
      if out.st.leases == st.leases {
        assert st.leases == st.leases[u := st.leases[u]];
      }
      SettlementKeepsBacked(st.leases, u, out.st.leases[u], rs, r, t, d, st.params.minLeaseDuration);
    }
  }

  lemma FiledOf(st: Store)
    requires Indexed(st)
    ensures LeasesFiled(st.leases)
  {
    hide Exact, SkuExact, Sheltered, Counted, CreditIndexOf, AccountsFiled;
  }

  lemma ReceiptTenant(r: Receipt, catalog: Catalog, leases: map<Uuid, Lease>, u: Uuid)
    requires ReceiptOf(r, catalog, leases, u)
    ensures u in leases && r.tenant == leases[u].tenant && r.uuid == u
  {
  }

  lemma {:induction false} BatchKeepsBacked(op: Op, env: Env, st: Store, rs: seq<Receipt>, us: seq<Uuid>, t: Address, d: string)
    requires Indexed(st) && Timely(st.leases, env.now) && Batch(op, env, st, us).Ok? && Backed(st, rs, t, d)
    requires var out := Batch(op, env, st, us).value; Modest(out.st.leases, rs + out.receipts, t, st.params.minLeaseDuration)
    ensures Backed(Batch(op, env, st, us).value.st, rs + Batch(op, env, st, us).value.receipts, t, d)
    decreases |us|
  {
    hide One, Indexed, Timely, ReservedExactly, Backed, Modest, OnlyEvolved, AllPersist, Evolves;
    if us == [] {
      assert rs + [] == rs;
    } else {
      var n := |us| - 1;
      var before := Batch(op, env, st, us[..n]).value;
      var last := One(op, env, before.st, us[n]).value;
      BatchIsKept(op, env, st, us[..n]);
      BatchPersists(op, env, st, us[..n]);
      OneIsKept(op, env, before.st, us[n]);
      assert rs + (before.receipts + last.receipts) == (rs + before.receipts) + last.receipts;
      KeptIsEvolved(before.st, us[n], last.st);
      ModestEarlier(before.st.leases, rs + before.receipts, [us[n]], last.st.leases, last.receipts, t, st.params.minLeaseDuration);
      BatchKeepsBacked(op, env, st, rs, us[..n], t, d);
      OneKeepsBacked(op, env, before.st, rs + before.receipts, us[n], t, d);
    }
  }

  /** A step that settles nothing keeps the balance covered unconditionally. */
  lemma QuietStepKeepsBacked(op: Op, env: Env, st: Store, rs: seq<Receipt>, u: Uuid, t: Address, d: string)
    requires Indexed(st) && Timely(st.leases, env.now) && !Charges(op) && One(op, env, st, u).Ok? && Backed(st, rs, t, d)
    ensures One(op, env, st, u).value.receipts == [] && Backed(One(op, env, st, u).value.st, rs, t, d)
  {
    QuietStepPaysNothing(op, env, st, u);
    hide One, Indexed, Timely, ReservedExactly, Holding, Sum, StartsOrEnds, PromisedTo;
    var out := One(op, env, st, u).value;
    OneTraces(op, env, st, u);
    OneIsKept(op, env, st, u);
    BankAfterOne(op, env, st, u, t, d);
    if out.st.leases != st.leases {
      PendingKeepsBacked(st.leases, u, out.st.leases[u], rs, t, d, st.params.minLeaseDuration);
    }
  }

  lemma QuietStepPaysNothing(op: Op, env: Env, st: Store, u: Uuid)
    requires !Charges(op) && One(op, env, st, u).Ok?
    ensures One(op, env, st, u).value.receipts == []
  {
    hide AcknowledgeOne, RejectOne, ExpireOne;
    if Strict(op, env, st, u).Ok? {
      var l := st.leases[u];
      match op
      case OpAcknowledge => PendingIsAccounted(st, env.now, l, "");
      case OpReject(reason) => PendingIsAccounted(st, env.now, l, reason);
      case OpExpire => PendingIsAccounted(st, env.now, l, "");
    }
  }

  lemma {:induction false} QuietBatchKeepsBacked(op: Op, env: Env, st: Store, rs: seq<Receipt>, us: seq<Uuid>, t: Address, d: string)
    requires Indexed(st) && Timely(st.leases, env.now) && !Charges(op) && Batch(op, env, st, us).Ok? && Backed(st, rs, t, d)
    ensures Batch(op, env, st, us).value.receipts == [] && Backed(Batch(op, env, st, us).value.st, rs, t, d)
    decreases |us|
  {
    hide One, Indexed, Timely, ReservedExactly, Backed, OnlyEvolved, AllPersist;
    if us != [] {
      var n := |us| - 1;
      QuietBatchKeepsBacked(op, env, st, rs, us[..n], t, d);
      BatchIsKept(op, env, st, us[..n]);
      BatchPersists(op, env, st, us[..n]);
      QuietStepKeepsBacked(op, env, Batch(op, env, st, us[..n]).value.st, rs, us[n], t, d);
    }
  }

  lemma KeptIsEvolved(st: Store, u: Uuid, st': Store)
    requires Kept(st, u, st')
    ensures OnlyEvolved(st.leases, [u], st'.leases)
  {
    hide Indexed, ReservedExactly;
    AllSelfEvolve(st.leases);
  }

  // ---------------------------------------------------------------- events

  /** The event takes nothing from the tenant's credit address except through settlement. */
  predicate Spares(st: Store, ev: Event, t: Address, d: string) {
    && (ev.Fund? ==> ev.sender != Credit(t))
    && (ev.External? ==> Holding(ev.bank, Credit(t), d) >= Holding(st.bank, Credit(t), d))
  }

  lemma PromisedIsReserved(leases: map<Uuid, Lease>, t: Address, d: string, min: nat, rs: seq<Receipt>)
    ensures Sum(leases, PromisedTo(t, d, min, rs)) <= Sum(leases, ReservedOf(t, d, min))
  {
    hide Sum, Rate, SecondsOf, Reservation;
    forall u | u in leases ensures PromisedTo(t, d, min, rs)(leases[u]) <= ReservedOf(t, d, min)(leases[u]) {
      ReservationAmount(leases[u], min, d);
      Times(Rate(leases[u].items, d), SecondsLeft(leases[u], min, rs), ReservedDuration(leases[u], min));
    }
    SumMonotone(leases, PromisedTo(t, d, min, rs), ReservedOf(t, d, min));
  }

  lemma CreationKeepsBacked(env: Env, st: Store, rs: seq<Receipt>, tenant: Address, inputs: seq<LeaseItemInput>, metaHash: seq<int>, t: Address, d: string)
    requires Good(st) && ReservedExactly(st) && NextUuid(env, st) !in st.leases && CreateLease(env, st, tenant, inputs, metaHash).Ok? && Backed(st, rs, t, d)
    ensures Backed(CreateLease(env, st, tenant, inputs, metaHash).value.st, rs, t, d)
  {
    hide CreateLease, Indexed, ReservedExactly, PriceItems, Holding, Sum, Rate, SecondsOf, UuidV7.Generate;
    var l := CreateKeeps(env, st, tenant, inputs, metaHash);
    var min, w := st.params.minLeaseDuration, PromisedTo(t, d, st.params.minLeaseDuration, rs);
    if tenant == t && Rate(l.items, d) > 0 {
      AdmissionNeverOverbooks(env, st, tenant, inputs, metaHash, d);
      PromisedIsReserved(CreateLease(env, st, tenant, inputs, metaHash).value.st.leases, t, d, min, rs);
    } else {
      SumUpdate(st.leases, w, l.uuid, l);
      assert w(l) == 0;
    }
  }

  lemma FundingKeepsBacked(st: Store, rs: seq<Receipt>, sender: Address, tenant: Address, amount: Coin, t: Address, d: string)
    requires Good(st) && FundCredit(st, sender, tenant, amount).Ok? && sender != Credit(t) && Backed(st, rs, t, d)
    ensures Backed(FundCredit(st, sender, tenant, amount).value.st, rs, t, d)
  {
    hide Holding, Sum, PromisedTo, ValidDenom, Send, Good;
    SendMoves(st.bank, sender, Credit(tenant), Single(amount), Credit(t), d);
  }

  lemma RelabellingKeepsPromises(leases: map<Uuid, Lease>, u: Uuid, service: string, domain: string, leases': map<Uuid, Lease>, t: Address, d: string, min: nat, rs: seq<Receipt>)
    requires Relabelled(leases, u, service, domain, leases')
    ensures Sum(leases', PromisedTo(t, d, min, rs)) <= Sum(leases, PromisedTo(t, d, min, rs))
  {
    hide Sum, Rate, SecondsOf, IsOnly;
    var w := PromisedTo(t, d, min, rs);
    forall v | v in leases ensures w(leases'[v]) <= w(leases[v]) {
      SameRate(leases'[v].items, leases[v].items, d);
    }
    SumPointwise(leases, leases', w);
  }

  lemma ParamsKeepPromises(leases: map<Uuid, Lease>, t: Address, d: string, min: nat, min': nat, rs: seq<Receipt>)
    requires NoLegacy(leases) || min' == min
    ensures Sum(leases, PromisedTo(t, d, min', rs)) == Sum(leases, PromisedTo(t, d, min, rs))
  {
    hide Sum, Rate, SecondsOf;
    if NoLegacy(leases) {
      SumSame(leases, PromisedTo(t, d, min', rs), PromisedTo(t, d, min, rs));
    }
  }

  lemma DomainKeepsBank(env: Env, st: Store, sender: Address, u: Uuid, service: string, raw: string)
    requires SetItemCustomDomain(env, st, sender, u, service, raw).Ok?
    ensures SetItemCustomDomain(env, st, sender, u, service, raw).value.st.bank == st.bank
    ensures SetItemCustomDomain(env, st, sender, u, service, raw).value.st.params == st.params
  {
    hide DomainEdit, Reconcile, UuidV7.IsValidUUIDv7, ValidLabel, ValidFqdn;
  }

  lemma DomainKeepsBacked(env: Env, st: Store, rs: seq<Receipt>, ev: Event, t: Address, d: string)
    requires Good(st) && ev.SetDomain? && Handle(env, st, ev).Ok? && Backed(st, rs, t, d)
    ensures Backed(Handle(env, st, ev).value.st, rs, t, d) && Handle(env, st, ev).value.receipts == []
  {
    hide Indexed, ReservedExactly, SetItemCustomDomain, Holding, Sum, PromisedTo, Relabelled;
    DomainKeepsBank(env, st, ev.sender, ev.uuid, ev.service, ev.domain);
    SetDomainKeeps(env, st, ev.sender, ev.uuid, ev.service, ev.domain);
    SetDomainPaysNothing(env, st, ev.sender, ev.uuid, ev.service, ev.domain);
    var st' := Handle(env, st, ev).value.st;
    if st' != st {
      RelabellingKeepsPromises(st.leases, ev.uuid, ev.service, Normalize(ev.domain), st'.leases, t, d, st.params.minLeaseDuration, rs);
    }
  }

  /** The messages that settle leases. */
  predicate Settling(ev: Event) { ev.Close? || ev.Withdraw? || ev.Sweep? }

  /** Every event but a settling one keeps the balance covered unconditionally. */
  lemma QuietEventKeepsBacked(env: Env, st: Store, rs: seq<Receipt>, ev: Event, t: Address, d: string)
    requires Good(st) && ReservedExactly(st) && Timely(st.leases, env.now) && Backed(st, rs, t, d) && Spares(st, ev, t, d)
    requires !Settling(ev) && (Creates(ev) && Handle(env, st, ev).Ok? ==> NextUuid(env, st) !in st.leases)
    requires NoLegacy(st.leases) || Deliver(env, st, ev).st.params.minLeaseDuration == st.params.minLeaseDuration
    ensures Backed(Deliver(env, st, ev).st, rs + Deliver(env, st, ev).receipts, t, d)
  {
    hide Indexed, ReservedExactly, NoLegacy, FundCredit, SetItemCustomDomain, UuidV7.Generate, CreateLease, CreateLeaseForTenant, EndBlock, WithdrawAll, WithdrawLeases, CloseLease, CancelLease, RejectLease, AcknowledgeLease, Batch, BatchTargets, Timely, UpdateParams, Holding, Sum, PromisedTo, Modest, OnlyEvolved, NextUuid;
    assert rs + [] == rs;
    if Handle(env, st, ev).Ok? {
      if IsBatch(ev) {
        HandleIsBatch(env, st, ev);
        QuietBatchKeepsBacked(BatchOp(ev), env, st, rs, BatchTargets(env, st, ev), t, d);
      } else if Creates(ev) {
        CreationIsCreateLease(env, st, ev);
        CreationPaysNothing(env, st, ev.tenant, ev.inputs, ev.metaHash);
        CreationKeepsBacked(env, st, rs, ev.tenant, ev.inputs, ev.metaHash, t, d);
      } else if ev.Fund? {
        FundPaysNothing(st, ev.sender, ev.tenant, ev.amount);
        FundingKeepsBacked(st, rs, ev.sender, ev.tenant, ev.amount, t, d);
      } else if ev.SetDomain? {
        DomainKeepsBacked(env, st, rs, ev, t, d);
      } else if ev.SetParams? {
        ParamsPayNothing(env, st, ev.sender, ev.params);
        ParamsKeepPromises(st.leases, t, d, st.params.minLeaseDuration, ev.params.minLeaseDuration, rs);
      }
    }
  }

  lemma DeliverKeepsBacked(env: Env, st: Store, rs: seq<Receipt>, ev: Event, t: Address, d: string)
    requires Good(st) && ReservedExactly(st) && Timely(st.leases, env.now) && Backed(st, rs, t, d) && Spares(st, ev, t, d)
    requires Creates(ev) && Handle(env, st, ev).Ok? ==> NextUuid(env, st) !in st.leases
    requires NoLegacy(st.leases) || Deliver(env, st, ev).st.params.minLeaseDuration == st.params.minLeaseDuration
    requires var out := Deliver(env, st, ev); Modest(out.st.leases, rs + out.receipts, t, out.st.params.minLeaseDuration)
    ensures Backed(Deliver(env, st, ev).st, rs + Deliver(env, st, ev).receipts, t, d)
  {
    hide Indexed, ReservedExactly, NoLegacy, Handle, Batch, BatchTargets, Timely, Backed, Modest, OnlyEvolved, NextUuid, Spares;
    assert rs + [] == rs;
    if !Settling(ev) {
      QuietEventKeepsBacked(env, st, rs, ev, t, d);
    } else if Handle(env, st, ev).Ok? {
      HandleIsBatch(env, st, ev);
      BatchIsKept(BatchOp(ev), env, st, BatchTargets(env, st, ev));
      BatchKeepsBacked(BatchOp(ev), env, st, rs, BatchTargets(env, st, ev), t, d);
    }
  }

  lemma CreationPaysNothing(env: Env, st: Store, tenant: Address, inputs: seq<LeaseItemInput>, metaHash: seq<int>)
    ensures CreateLease(env, st, tenant, inputs, metaHash).Ok? ==> CreateLease(env, st, tenant, inputs, metaHash).value.receipts == []
  {
    hide CheckLeaseItems, PriceItems, Rates, Scale, Covers, Free, Place, NewLease, Reserve;
  }

  lemma FundPaysNothing(st: Store, sender: Address, tenant: Address, amount: Coin)
    ensures FundCredit(st, sender, tenant, amount).Ok? ==> FundCredit(st, sender, tenant, amount).value.receipts == []
  {
    hide Send, ValidDenom;
  }

  // ---------------------------------------------------------------- runs

  /** Nothing but settlement takes from the tenant's credit address during the run. */
  ghost predicate SparedRun(st: Store, steps: seq<Step>, t: Address, d: string) {
    steps == [] ||
    var n := |steps| - 1;
    SparedRun(st, steps[..n], t, d) && Spares(Run(st, steps[..n]).st, steps[n].event, t, d)
  }

  /** At every point of the run every lease of the tenant has been charged for at most its
      reserved seconds. */
  ghost predicate ModestRun(st: Store, steps: seq<Step>, t: Address) {
    steps == [] ||
    var out := Run(st, steps);
    ModestRun(st, steps[..|steps| - 1], t) && Modest(out.st.leases, out.receipts, t, out.st.params.minLeaseDuration)
  }

  /** While no lease of the tenant runs past its reserved seconds and nothing else takes from the
      credit address, the balance covers the uncharged reserved seconds of all its live leases. */
  lemma {:induction false} RunKeepsBacked(st: Store, now: Time, steps: seq<Step>, t: Address, d: string)
    requires Good(st) && FreshRun(st, steps) && ReservedExactly(st)
    requires NoLegacy(st.leases) || SameMinimum(steps, st.params.minLeaseDuration)
    requires Timely(st.leases, now) && Clocked(now, steps) && Backed(st, [], t, d)
    requires ModestRun(st, steps, t) && SparedRun(st, steps, t, d)
    ensures Backed(Run(st, steps).st, Run(st, steps).receipts, t, d)
    decreases |steps|
  {
    hide Good, ReservedExactly, NoLegacy, Timely, Backed, Modest, Spares, Deliver, Handle, NextUuid, AllPersist;
    if steps != [] {
      var n := |steps| - 1;
      RunKeepsBacked(st, now, steps[..n], t, d);
      RunKeepsGood(st, steps[..n]);
      RunKeepsReserved(st, steps[..n]);
      RunPersists(st, now, steps[..n]);
      var before, env, ev := Run(st, steps[..n]), steps[n].env, steps[n].event;
      TimePasses(before.st.leases, LastTime(now, steps[..n]), env.now);
      if !NoLegacy(st.leases) {
        MinimumStays(env, before.st, ev);
      }
      DeliverKeepsBacked(env, before.st, before.receipts, ev, t, d);
    }
  }

  /** Each of its live leases can then be paid for the rest of its reserved seconds. */
  lemma EachLeaseIsBacked(st: Store, rs: seq<Receipt>, u: Uuid, d: string)
    requires u in st.leases && Live(st.leases[u]) && Backed(st, rs, st.leases[u].tenant, d)
    ensures Holding(st.bank, Credit(st.leases[u].tenant), d) >= Rate(st.leases[u].items, d) * SecondsLeft(st.leases[u], st.params.minLeaseDuration, rs)
  {
    hide Holding, Sum, Rate, SecondsLeft;
    SumBound(st.leases, PromisedTo(st.leases[u].tenant, d, st.params.minLeaseDuration, rs), u);
  }

  lemma EmptyIsBacked(params: Params, bank: Bank, t: Address, d: string)
    ensures Backed(EmptyStore(params, bank), [], t, d)
  {
    SumZero(EmptyStore(params, bank).leases, PromisedTo(t, d, params.minLeaseDuration, []));
  }
}
