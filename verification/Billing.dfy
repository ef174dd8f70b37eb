/** The bill of a lease over its whole life: what all its settlements together charge, compared
    with the time it was active. */
module Billing {
  import opened Coins
  import opened Types
  import opened Reservations
  import opened Accrual
  import opened Ledger
  import opened Invariants
  import opened Reachable
  import opened Payments
  import opened Lifetime
  import opened Names
  import UuidV7

  // ---------------------------------------------------------------- reading a history of receipts

  function GapSeconds(r: Receipt): nat { BilledSeconds(Sub(r.to, r.from)) }

  /** Seconds charged to lease `u`. */
  function SecondsOf(rs: seq<Receipt>, u: Uuid): nat {
    if rs == [] then 0
    else SecondsOf(rs[..|rs| - 1], u) + if rs[|rs| - 1].uuid == u then GapSeconds(rs[|rs| - 1]) else 0
  }

  /** Number of settlements of lease `u`. */
  function CountOf(rs: seq<Receipt>, u: Uuid): nat {
    if rs == [] then 0 else CountOf(rs[..|rs| - 1], u) + if rs[|rs| - 1].uuid == u then 1 else 0
  }

  /** Amount paid for lease `u`. */
  function PaidFor(rs: seq<Receipt>, u: Uuid, d: string): nat {
    if rs == [] then 0
    else PaidFor(rs[..|rs| - 1], u, d) + if rs[|rs| - 1].uuid == u then AmountOf(rs[|rs| - 1].transfer, d) else 0
  }

  /** Every gap of lease `u` stayed within the accrual limit. */
  predicate WithinFor(rs: seq<Receipt>, u: Uuid) {
    forall r :: r in rs && r.uuid == u ==> Seconds(Sub(r.to, r.from)) <= MAX_DURATION_SECONDS
  }

  /** Lease `u` never ran short: every settlement paid what had accrued. */
  predicate FullFor(rs: seq<Receipt>, u: Uuid) {
    forall r :: r in rs && r.uuid == u ==> r.transfer == r.accrued
  }

  lemma Snoc(rs: seq<Receipt>, r: Receipt, u: Uuid, d: string)
    ensures SecondsOf(rs + [r], u) == SecondsOf(rs, u) + if r.uuid == u then GapSeconds(r) else 0
    ensures CountOf(rs + [r], u) == CountOf(rs, u) + if r.uuid == u then 1 else 0
    ensures PaidFor(rs + [r], u, d) == PaidFor(rs, u, d) + if r.uuid == u then AmountOf(r.transfer, d) else 0
    ensures WithinFor(rs + [r], u) ==> WithinFor(rs, u) && (r.uuid == u ==> Seconds(Sub(r.to, r.from)) <= MAX_DURATION_SECONDS)
    ensures FullFor(rs + [r], u) ==> FullFor(rs, u) && (r.uuid == u ==> r.transfer == r.accrued)
  {
    assert (rs + [r])[..|rs|] == rs;
    assert r in rs + [r];
    assert forall x :: x in rs ==> x in rs + [r];
  }

  lemma {:induction false} NoSecondsElsewhere(rs: seq<Receipt>, u: Uuid)
    requires forall r :: r in rs ==> r.uuid != u
    ensures SecondsOf(rs, u) == 0
    decreases |rs|
  {
    if rs != [] {
      var n := |rs| - 1;
      assert rs[n] in rs && forall r :: r in rs[..n] ==> r in rs;
      NoSecondsElsewhere(rs[..n], u);
    }
  }

  // ---------------------------------------------------------------- one settlement

  /** The receipt charges at most the rate for the whole seconds of its gap, and exactly that
      when it is paid in full. */
  ghost predicate Fair(r: Receipt, items: seq<LeaseItem>) {
    Seconds(Sub(r.to, r.from)) <= MAX_DURATION_SECONDS ==>
      forall d :: AmountOf(r.transfer, d) <= Rate(items, d) * GapSeconds(r) &&
                  (r.transfer == r.accrued ==> AmountOf(r.transfer, d) == Rate(items, d) * GapSeconds(r))
  }

  /** A receipt that bridges the lease before and after a settlement. */
  ghost predicate Bridges(r: Receipt, l: Lease, l': Lease) {
    && r.uuid == l.uuid && r.from == l.lastSettledAt && r.to == l'.lastSettledAt && r.from <= r.to
    && Fair(r, l.items)
    && l.state == Active && (l'.state == Active || l'.state == Closed)
    && l'.items == l.items && l'.acknowledgedAt == l.acknowledgedAt
  }

  lemma SettlementIsFair(bank: Bank, catalog: Catalog, l: Lease, at: Time, silent: bool, closed: bool)
    requires Settle(bank, catalog, l, at, silent).Ok? && l.lastSettledAt <= at
    ensures Fair(MakeReceipt(catalog, l, at, Settle(bank, catalog, l, at, silent).value, closed), l.items)
  {
    var s := Settle(bank, catalog, l, at, silent).value;
    var r := MakeReceipt(catalog, l, at, s, closed);
    SettleTransfers(bank, catalog, l, at, silent);
    SaturationIsHarmless(at, l.lastSettledAt);
    if Seconds(Sub(at, l.lastSettledAt)) <= MAX_DURATION_SECONDS {
      assert WithinLimit(l, at);
      hide Settle, WithinLimit, Available, Payout;
      forall d
        ensures AmountOf(r.transfer, d) <= Rate(l.items, d) * GapSeconds(r)
        ensures r.transfer == r.accrued ==> AmountOf(r.transfer, d) == Rate(l.items, d) * GapSeconds(r)
      {
        DueAmount(l, at, d);
        hide DueAt, Rate, GapSeconds;
      }
    }
  }

  lemma DueAmount(l: Lease, at: Time, d: string)
    requires l.lastSettledAt <= at
    ensures AmountOf(DueAt(l, at), d) == Rate(l.items, d) * BilledSeconds(Sub(at, l.lastSettledAt))
  {
    hide Rates, Scale, Rate;
    ScaleAmount(Rates(l.items), BilledSeconds(Sub(at, l.lastSettledAt)), d);
    if at == l.lastSettledAt {
      assert BilledSeconds(0) == 0;
    }
  }

  /** The lease change and the receipts of one step of a batch. */
  ghost predicate Traces(leases: map<Uuid, Lease>, u: Uuid, rs: seq<Receipt>, leases': map<Uuid, Lease>) {
    if rs == [] then
      || leases' == leases
      || (u in leases && u in leases' && leases' == leases[u := leases'[u]] && leases[u].state == Pending &&
          StartsOrEnds(leases[u], leases'[u]))
    else
      && u in leases && u in leases' && leases' == leases[u := leases'[u]]
      && |rs| == 1 && Bridges(rs[0], leases[u], leases'[u]) && rs[0].uuid == u
  }

  /** A pending lease was acknowledged, so that billing starts, or ended unbilled. */
  predicate StartsOrEnds(l: Lease, l': Lease) {
    && l'.items == l.items && l'.uuid == l.uuid
    && (l'.state == Rejected || l'.state == Expired ||
        (l'.state == Active && l'.acknowledgedAt == Some(l'.lastSettledAt)))
  }

  lemma FinishTraces(st: Store, env: Env, l: Lease, silent: bool, reason: string, wrap: bool)
    requires Indexed(st) && l.uuid in st.leases && st.leases[l.uuid] == l && l.state == Active && l.lastSettledAt <= env.now
    requires Finish(st, env, l, silent, reason, wrap).Ok?
    ensures var out := Finish(st, env, l, silent, reason, wrap).value;
            Traces(st.leases, l.uuid, out.receipts, out.st.leases)
  {
    hide Indexed, Settle, Finish, Kept, Fair, Payout;
    FinishIsKept(st, env, l, silent, reason, wrap);
    FinishReceipt(st, env, l, silent, reason, wrap);
    SettlementIsFair(st.bank, env.catalog, l, env.now, silent, true);
  }

  lemma FinishReceipt(st: Store, env: Env, l: Lease, silent: bool, reason: string, wrap: bool)
    requires Finish(st, env, l, silent, reason, wrap).Ok?
    ensures Settle(st.bank, env.catalog, l, env.now, silent).Ok?
    ensures Finish(st, env, l, silent, reason, wrap).value.receipts ==
            [MakeReceipt(env.catalog, l, env.now, Settle(st.bank, env.catalog, l, env.now, silent).value, true)]
  {
    hide Settle, Move, Payout;
  }

  lemma SettledTraces(st: Store, env: Env, l: Lease, silent: bool)
    requires Indexed(st) && l.uuid in st.leases && st.leases[l.uuid] == l && l.state == Active && l.lastSettledAt <= env.now
    requires Settle(st.bank, env.catalog, l, env.now, silent).Ok?
    requires SetLease(st.(bank := Settle(st.bank, env.catalog, l, env.now, silent).value.bank), l.(lastSettledAt := env.now)).Ok?
    ensures var s := Settle(st.bank, env.catalog, l, env.now, silent).value;
            Traces(st.leases, l.uuid, [MakeReceipt(env.catalog, l, env.now, s, false)],
                   SetLease(st.(bank := s.bank), l.(lastSettledAt := env.now)).value.leases)
  {
    hide Indexed, Settle, SetLease, Kept, Fair, Payout;
    var s := Settle(st.bank, env.catalog, l, env.now, silent).value;
    SettledIsKept(st, s.bank, l, env.now);
    SettlementIsFair(st.bank, env.catalog, l, env.now, silent, false);
  }

  lemma PendingTraces(st: Store, now: Time, l: Lease, reason: string)
    requires Indexed(st) && l.uuid in st.leases && st.leases[l.uuid] == l
    ensures AcknowledgeOne(st, now, l).Ok? ==> Traces(st.leases, l.uuid, AcknowledgeOne(st, now, l).value.receipts, AcknowledgeOne(st, now, l).value.st.leases)
    ensures RejectOne(st, now, l, reason).Ok? ==> Traces(st.leases, l.uuid, RejectOne(st, now, l, reason).value.receipts, RejectOne(st, now, l, reason).value.st.leases)
    ensures ExpireOne(st, now, l).Ok? ==> Traces(st.leases, l.uuid, ExpireOne(st, now, l).value.receipts, ExpireOne(st, now, l).value.st.leases)
  {
    hide Indexed, Kept, Move, Bridges, Reservation;
    AcknowledgeNeedsPending(st, now, l, reason);
    if l.state == Pending {
      PendingStepIsKept(st, now, l, reason);
    }
  }

  lemma OneTraces(op: Op, env: Env, st: Store, u: Uuid)
    requires Indexed(st) && Timely(st.leases, env.now) && One(op, env, st, u).Ok?
    ensures Traces(st.leases, u, One(op, env, st, u).value.receipts, One(op, env, st, u).value.st.leases)
  {
    hide Indexed, AcknowledgeOne, RejectOne, ExpireOne, CloseOne, WithdrawOne, SweepOne, Bridges, TimelyLease;
    if u in st.leases && Terminal(st.leases[u]) {
      TimelyAt(st.leases, u, env.now);
      TerminalIsFrozen(op, env, st, u);
    } else if u in st.leases && Strict(op, env, st, u).Ok? {
      TimelyAt(st.leases, u, env.now);
      FiledUnderKey(st, u);
      LiveTraces(op, env, st, u);
    }
  }

  lemma LiveTraces(op: Op, env: Env, st: Store, u: Uuid)
    requires Indexed(st) && u in st.leases && TimelyLease(st.leases[u], env.now) && Strict(op, env, st, u).Ok?
    requires st.leases[u].uuid == u && !Terminal(st.leases[u])
    ensures Traces(st.leases, u, Strict(op, env, st, u).value.receipts, Strict(op, env, st, u).value.st.leases)
  {
    hide Indexed, Finish, Exhausted, AcknowledgeOne, RejectOne, ExpireOne, WithdrawOne, SweepOne, Traces;
    var l := st.leases[u];
    match op
    case OpAcknowledge => PendingTraces(st, env.now, l, "");
    case OpReject(reason) => PendingTraces(st, env.now, l, reason);
    case OpExpire => PendingTraces(st, env.now, l, "");
    case OpClose(reason) =>
      var exhausted := ShouldAutoClose(st.bank, l, env.now).value;
      FinishTraces(st, env, l, exhausted, if exhausted then CREDIT_EXHAUSTED else reason, true);
    case OpWithdraw => WithdrawTraces(env, st, l);
    case OpSweep => SweepTraces(env, st, l);
  }

  lemma NothingTraces(leases: map<Uuid, Lease>, u: Uuid)
    ensures Traces(leases, u, [], leases)
  {
    hide StartsOrEnds;
  }

  lemma WithdrawTraces(env: Env, st: Store, l: Lease)
    requires Indexed(st) && l.uuid in st.leases && st.leases[l.uuid] == l && TimelyLease(l, env.now) && !Terminal(l)
    ensures WithdrawOne(st, env, l).Ok? ==>
              Traces(st.leases, l.uuid, WithdrawOne(st, env, l).value.receipts, WithdrawOne(st, env, l).value.st.leases)
  {
    PendingSettlesNothing(st.bank, env, l);
    hide Indexed, Settle, SetLease, Finish, Exhausted, Traces;
    NothingTraces(st.leases, l.uuid);
    if WithdrawOne(st, env, l).Ok? {
      if ShouldAutoClose(st.bank, l, env.now).value {
        FinishTraces(st, env, l, true, CREDIT_EXHAUSTED, false);
      } else if l.state == Active && Settle(st.bank, env.catalog, l, env.now, false).value.accrued != NO_COINS {
        SettledTraces(st, env, l, false);
      }
    }
  }

  lemma SweepTraces(env: Env, st: Store, l: Lease)
    requires Indexed(st) && l.uuid in st.leases && st.leases[l.uuid] == l && TimelyLease(l, env.now) && !Terminal(l)
    ensures SweepOne(st, env, l).Ok? ==>
              Traces(st.leases, l.uuid, SweepOne(st, env, l).value.receipts, SweepOne(st, env, l).value.st.leases)
  {
    hide Indexed, Settle, SetLease, Finish, Exhausted, Traces;
    NothingTraces(st.leases, l.uuid);
    if SweepOne(st, env, l).Ok? {
      if ShouldAutoClose(st.bank, l, env.now).value {
        FinishTraces(st, env, l, true, CREDIT_EXHAUSTED, false);
      } else if l.state == Active && env.now > l.lastSettledAt && Settle(st.bank, env.catalog, l, env.now, true).value.transfer != NO_COINS {
        SettledTraces(st, env, l, true);
      }
    }
  }

  lemma PendingSettlesNothing(bank: Bank, env: Env, l: Lease)
    ensures forall silent :: Settle(bank, env.catalog, l, l.lastSettledAt, silent) == Ok(Settlement(bank, NO_COINS, NO_COINS))
  {
    hide Accrued, Available, Send;
  }

  // ---------------------------------------------------------------- the invariant

  function Whole(nanos: int): int { nanos / NANOS_PER_SECOND }

  /** Splitting a span loses less than one second per cut and never gains any. */
  lemma WholeSplits(a: nat, b: nat)
    ensures Whole(a + b) - 1 <= Whole(a) + Whole(b) <= Whole(a + b)
  {
  }

  /** The time from which a lease is billed: where its account was opened, for a lease that was
      running by then, and its acknowledgement otherwise. */
  function BilledFrom(since: map<Uuid, Time>, u: Uuid, l: Lease): Option<Time> {
    if u in since then Some(since[u]) else l.acknowledgedAt
  }

  /** Charged seconds against the time from there to the last settlement. */
  predicate BilledLease(l: Lease, from: Option<Time>, seconds: nat, count: nat) {
    if l.state == Active || l.state == Closed then
      && from.Some? && from.value <= l.lastSettledAt
      && seconds <= Whole(l.lastSettledAt - from.value)
      && (count > 0 ==> seconds >= Whole(l.lastSettledAt - from.value) - (count - 1))
      && (count == 0 ==> l.lastSettledAt == from.value)
    else
      seconds == 0 && count == 0
  }

  ghost predicate SecondsRight(leases: map<Uuid, Lease>, rs: seq<Receipt>, since: map<Uuid, Time>) {
    forall u ::
      && (u !in leases ==> CountOf(rs, u) == 0 && u !in since)
      && (u in leases && leases[u].state == Pending ==> u !in since)
      && (u in leases && WithinFor(rs, u) ==> BilledLease(leases[u], BilledFrom(since, u, leases[u]), SecondsOf(rs, u), CountOf(rs, u)))
  }

  ghost predicate PaidRight(leases: map<Uuid, Lease>, rs: seq<Receipt>) {
    forall u, d :: u in leases && WithinFor(rs, u) ==> PaidAt(Rate(leases[u].items, d), rs, u, d)
  }

  /** At most the rate per charged second, and exactly that if never short. */
  predicate PaidAt(rate: nat, rs: seq<Receipt>, u: Uuid, d: string) {
    && PaidFor(rs, u, d) <= rate * SecondsOf(rs, u)
    && (FullFor(rs, u) ==> PaidFor(rs, u, d) == rate * SecondsOf(rs, u))
  }

  lemma {:induction false} NoReceiptsNothing(rs: seq<Receipt>, u: Uuid, d: string)
    requires CountOf(rs, u) == 0
    ensures SecondsOf(rs, u) == 0 && PaidFor(rs, u, d) == 0
    decreases |rs|
  {
    if rs != [] {
      NoReceiptsNothing(rs[..|rs| - 1], u, d);
    }
  }

  lemma BridgeSeconds(l: Lease, l': Lease, r: Receipt, from: Option<Time>, seconds: nat, count: nat)
    requires Bridges(r, l, l') && BilledLease(l, from, seconds, count) && Seconds(Sub(r.to, r.from)) <= MAX_DURATION_SECONDS
    ensures BilledLease(l', from, seconds + GapSeconds(r), count + 1)
  {
    hide Fair;
    SaturationIsHarmless(r.to, r.from);
    assert GapSeconds(r) == Whole(r.to - r.from);
    WholeSplits(l.lastSettledAt - from.value, r.to - r.from);
  }

  lemma TraceSeconds(leases: map<Uuid, Lease>, rs: seq<Receipt>, since: map<Uuid, Time>, u: Uuid, more: seq<Receipt>, leases': map<Uuid, Lease>)
    requires SecondsRight(leases, rs, since) && Traces(leases, u, more, leases')
    ensures SecondsRight(leases', rs + more, since)
  {
    hide SecondsRight, Bridges;
    if more == [] {
      assert rs + more == rs;
      if leases' != leases {
        StartSeconds(leases, rs, since, u, leases'[u]);
      }
    } else {
      assert more == [more[0]];
      ReceiptSeconds(leases, rs, since, u, more[0], leases'[u]);
    }
  }

  lemma ReceiptSeconds(leases: map<Uuid, Lease>, rs: seq<Receipt>, since: map<Uuid, Time>, u: Uuid, r: Receipt, l': Lease)
    requires SecondsRight(leases, rs, since) && u in leases && Bridges(r, leases[u], l') && r.uuid == u
    ensures SecondsRight(leases[u := l'], rs + [r], since)
  {
    hide Bridges, BilledLease, SecondsOf, CountOf, WithinFor, BilledFrom;
    BridgeKeepsStart(leases[u], l', r, since, u);
    var leases' := leases[u := l'];
    forall v
      ensures v !in leases' ==> CountOf(rs + [r], v) == 0
      ensures v in leases' && WithinFor(rs + [r], v) ==>
                BilledLease(leases'[v], BilledFrom(since, v, leases'[v]), SecondsOf(rs + [r], v), CountOf(rs + [r], v))
    {
      if v == u {
        OwnSeconds(leases, rs, since, u, r, l');
      } else {
        OtherSeconds(rs, r, v);
      }
    }
  }

  lemma BilledSoFar(leases: map<Uuid, Lease>, rs: seq<Receipt>, since: map<Uuid, Time>, u: Uuid)
    requires SecondsRight(leases, rs, since) && u in leases && WithinFor(rs, u)
    ensures BilledLease(leases[u], BilledFrom(since, u, leases[u]), SecondsOf(rs, u), CountOf(rs, u))
  {
    hide BilledLease, SecondsOf, CountOf, WithinFor, BilledFrom;
  }

  lemma OwnSeconds(leases: map<Uuid, Lease>, rs: seq<Receipt>, since: map<Uuid, Time>, u: Uuid, r: Receipt, l': Lease)
    requires SecondsRight(leases, rs, since) && u in leases && Bridges(r, leases[u], l') && r.uuid == u
    ensures WithinFor(rs + [r], u) ==> BilledLease(l', BilledFrom(since, u, l'), SecondsOf(rs + [r], u), CountOf(rs + [r], u))
  {
    hide Bridges, BilledLease, SecondsOf, CountOf, WithinFor, BilledFrom, GapSeconds, Sub, Seconds, PaidFor, FullFor, SecondsRight;
    Snoc(rs, r, u, "");
    BridgeKeepsStart(leases[u], l', r, since, u);
    if WithinFor(rs + [r], u) {
      BilledSoFar(leases, rs, since, u);
      BridgeSeconds(leases[u], l', r, BilledFrom(since, u, leases[u]), SecondsOf(rs, u), CountOf(rs, u));
    }
  }

  lemma OtherSeconds(rs: seq<Receipt>, r: Receipt, v: Uuid)
    requires r.uuid != v
    ensures SecondsOf(rs + [r], v) == SecondsOf(rs, v) && CountOf(rs + [r], v) == CountOf(rs, v)
    ensures WithinFor(rs + [r], v) ==> WithinFor(rs, v)
  {
    hide PaidFor, FullFor, GapSeconds, Seconds, Sub;
    Snoc(rs, r, v, "");
  }

  lemma BridgeKeepsStart(l: Lease, l': Lease, r: Receipt, since: map<Uuid, Time>, u: Uuid)
    requires Bridges(r, l, l')
    ensures BilledFrom(since, u, l') == BilledFrom(since, u, l) && l'.state != Pending
  {
    hide Fair;
  }

  lemma StartSeconds(leases: map<Uuid, Lease>, rs: seq<Receipt>, since: map<Uuid, Time>, u: Uuid, l': Lease)
    requires SecondsRight(leases, rs, since) && u in leases && leases[u].state == Pending && StartsOrEnds(leases[u], l')
    ensures SecondsRight(leases[u := l'], rs, since)
  {
    hide SecondsOf, CountOf, WithinFor;
    forall v
      ensures v in leases[u := l'] && WithinFor(rs, v) ==>
                BilledLease(leases[u := l'][v], BilledFrom(since, v, leases[u := l'][v]), SecondsOf(rs, v), CountOf(rs, v))
    {
      if v == u && WithinFor(rs, u) {
        assert BilledLease(leases[u], BilledFrom(since, u, leases[u]), SecondsOf(rs, u), CountOf(rs, u));
      }
    }
  }

  lemma BridgePays(rate: nat, paid: nat, seconds: nat, more: nat, gap: nat)
    requires paid <= rate * seconds && more <= rate * gap
    ensures paid + more <= rate * (seconds + gap)
    ensures paid == rate * seconds && more == rate * gap ==> paid + more == rate * (seconds + gap)
  {
    assert rate * (seconds + gap) == rate * seconds + rate * gap;
  }

  lemma ReceiptPays(rate: nat, rs: seq<Receipt>, r: Receipt, u: Uuid, d: string)
    requires PaidAt(rate, rs, u, d)
    requires r.uuid == u ==> AmountOf(r.transfer, d) <= rate * GapSeconds(r)
    requires r.uuid == u && r.transfer == r.accrued ==> AmountOf(r.transfer, d) == rate * GapSeconds(r)
    ensures PaidAt(rate, rs + [r], u, d)
  {
    hide SecondsOf, PaidFor, GapSeconds, FullFor, WithinFor;
    Snoc(rs, r, u, d);
    if r.uuid == u {
      BridgePays(rate, PaidFor(rs, u, d), SecondsOf(rs, u), AmountOf(r.transfer, d), GapSeconds(r));
    }
  }

  lemma TracePaid(leases: map<Uuid, Lease>, rs: seq<Receipt>, u: Uuid, more: seq<Receipt>, leases': map<Uuid, Lease>)
    requires PaidRight(leases, rs) && Traces(leases, u, more, leases')
    ensures PaidRight(leases', rs + more)
  {
    if more == [] {
      hide PaidAt, WithinFor, Rate;
      assert rs + more == rs;
    } else {
      var r := more[0];
      assert more == [r];
      forall v, d | v in leases' && WithinFor(rs + [r], v) ensures PaidAt(Rate(leases'[v].items, d), rs + [r], v, d) {
        hide PaidAt, SecondsOf, PaidFor, FullFor, Rate, GapSeconds;
        Snoc(rs, r, v, d);
        ReceiptPays(Rate(leases'[v].items, d), rs, r, v, d);
      }
    }
  }

  /** Both halves of the bill. */
  ghost predicate BillRight(leases: map<Uuid, Lease>, rs: seq<Receipt>, since: map<Uuid, Time>) {
    SecondsRight(leases, rs, since) && PaidRight(leases, rs)
  }

  lemma {:induction false} BatchBills(op: Op, env: Env, st: Store, rs: seq<Receipt>, since: map<Uuid, Time>, us: seq<Uuid>)
    requires Indexed(st) && Timely(st.leases, env.now) && BillRight(st.leases, rs, since) && Batch(op, env, st, us).Ok?
    ensures BillRight(Batch(op, env, st, us).value.st.leases, rs + Batch(op, env, st, us).value.receipts, since)
    decreases |us|
  {
    hide Indexed, One, Timely, OnlyEvolved, ReservedExactly, SecondsRight, PaidRight, Traces, AllPersist;
    if us == [] {
      assert rs + [] == rs;
    } else {
      var n := |us| - 1;
      BatchBills(op, env, st, rs, since, us[..n]);
      BatchIsKept(op, env, st, us[..n]);
      BatchPersists(op, env, st, us[..n]);
      var before := Batch(op, env, st, us[..n]).value;
      var last := One(op, env, before.st, us[n]).value;
      OneTraces(op, env, before.st, us[n]);
      TraceSeconds(before.st.leases, rs + before.receipts, since, us[n], last.receipts, last.st.leases);
      TracePaid(before.st.leases, rs + before.receipts, us[n], last.receipts, last.st.leases);
      assert rs + (before.receipts + last.receipts) == rs + before.receipts + last.receipts;
    }
  }

  // ---------------------------------------------------------------- events and runs

  lemma FreshBills(leases: map<Uuid, Lease>, rs: seq<Receipt>, since: map<Uuid, Time>, l: Lease)
    requires BillRight(leases, rs, since) && l.uuid !in leases && l.state == Pending
    ensures BillRight(leases[l.uuid := l], rs, since)
  {
    hide SecondsOf, CountOf, PaidFor, WithinFor, FullFor, Rate;
    assert CountOf(rs, l.uuid) == 0;
    NoReceiptsNothing(rs, l.uuid, "");
    var leases' := leases[l.uuid := l];
    forall u, d | u in leases' && WithinFor(rs, u) ensures PaidAt(Rate(leases'[u].items, d), rs, u, d) {
      if u == l.uuid { NoReceiptsNothing(rs, u, d); }
    }
  }

  lemma RelabelledBills(leases: map<Uuid, Lease>, rs: seq<Receipt>, since: map<Uuid, Time>, u: Uuid, service: string, domain: string, leases': map<Uuid, Lease>)
    requires BillRight(leases, rs, since) && Relabelled(leases, u, service, domain, leases')
    ensures BillRight(leases', rs, since)
  {
    hide SecondsOf, CountOf, PaidFor, WithinFor, FullFor, Rate, IsOnly;
    forall v, d | v in leases' ensures v in leases && Rate(leases'[v].items, d) == Rate(leases[v].items, d) {
      SameRate(leases'[v].items, leases[v].items, d);
    }
    forall v | v in leases' && WithinFor(rs, v) ensures BilledLease(leases'[v], BilledFrom(since, v, leases'[v]), SecondsOf(rs, v), CountOf(rs, v)) {
      assert BilledLease(leases[v], BilledFrom(since, v, leases[v]), SecondsOf(rs, v), CountOf(rs, v));
    }
  }

  lemma DeliverBills(env: Env, st: Store, rs: seq<Receipt>, since: map<Uuid, Time>, ev: Event)
    requires Good(st) && Timely(st.leases, env.now) && BillRight(st.leases, rs, since)
    requires Creates(ev) && Handle(env, st, ev).Ok? ==> NextUuid(env, st) !in st.leases
    ensures BillRight(Deliver(env, st, ev).st.leases, rs + Deliver(env, st, ev).receipts, since)
  {
    hide Indexed, ReservedExactly, NoLegacy, SetItemCustomDomain, UuidV7.Generate, CreateLease, CreateLeaseForTenant, EndBlock, WithdrawAll, WithdrawLeases, CloseLease, CancelLease, RejectLease, AcknowledgeLease, Batch, BatchTargets, Relabelled, Timely, BillRight, UpdateParams, Send;
    assert rs + [] == rs;
    if Handle(env, st, ev).Ok? {
      var st' := Handle(env, st, ev).value.st;
      if IsBatch(ev) {
        HandleIsBatch(env, st, ev);
        BatchBills(BatchOp(ev), env, st, rs, since, BatchTargets(env, st, ev));
      } else if Creates(ev) {
        CreationBills(env, st, rs, since, ev);
      } else if ev.Fund? {
        FundKeeps(st, ev.sender, ev.tenant, ev.amount);
      } else if ev.SetDomain? {
        SetDomainKeeps(env, st, ev.sender, ev.uuid, ev.service, ev.domain);
        SetDomainPaysNothing(env, st, ev.sender, ev.uuid, ev.service, ev.domain);
        if st' != st {
          RelabelledBills(st.leases, rs, since, ev.uuid, ev.service, Normalize(ev.domain), st'.leases);
        }
      } else if ev.SetParams? {
        ParamsPayNothing(env, st, ev.sender, ev.params);
      }
    }
  }

  lemma ParamsPayNothing(env: Env, st: Store, sender: Address, params: Params)
    ensures UpdateParams(env, st, sender, params).Ok? ==>
              UpdateParams(env, st, sender, params).value == Out(st.(params := params), [])
  {
    hide ValidParams;
  }

  lemma SetDomainPaysNothing(env: Env, st: Store, sender: Address, u: Uuid, service: string, raw: string)
    ensures SetItemCustomDomain(env, st, sender, u, service, raw).Ok? ==>
              SetItemCustomDomain(env, st, sender, u, service, raw).value.receipts == []
  {
    hide DomainEdit, SetLease, UuidV7.IsValidUUIDv7, ValidLabel, ValidFqdn;
  }

  lemma CreationBills(env: Env, st: Store, rs: seq<Receipt>, since: map<Uuid, Time>, ev: Event)
    requires Good(st) && BillRight(st.leases, rs, since) && Creates(ev) && Handle(env, st, ev).Ok? && NextUuid(env, st) !in st.leases
    ensures BillRight(Handle(env, st, ev).value.st.leases, rs, since) && Handle(env, st, ev).value.receipts == []
  {
    hide Good, Handle, UuidV7.Generate, PriceItems, BillRight, CreateLease, Place;
    var l := CreationKeeps(env, st, ev);
    FreshBills(st.leases, rs, since, l);
    CreationIsCreateLease(env, st, ev);
    var l' := CreateWrites(env, st, ev.tenant, ev.inputs, ev.metaHash);
  }

  /** A history that agrees with the leases still does after every run, extended by the run's
      receipts. */
  lemma {:induction false} RunBills(st: Store, rs: seq<Receipt>, since: map<Uuid, Time>, now: Time, steps: seq<Step>)
    requires Good(st) && FreshRun(st, steps)
    requires Timely(st.leases, now) && Clocked(now, steps) && BillRight(st.leases, rs, since)
    ensures BillRight(Run(st, steps).st.leases, rs + Run(st, steps).receipts, since)
    decreases |steps|
  {
    hide Good, UuidV7.Generate, Deliver, Timely, AllPersist, Handle, BillRight;
    if steps == [] {
      assert rs + [] == rs;
    } else {
      var n := |steps| - 1;
      RunBills(st, rs, since, now, steps[..n]);
      RunPersists(st, now, steps[..n]);
      RunKeepsGood(st, steps[..n]);
      var before := Run(st, steps[..n]);
      TimePasses(before.st.leases, LastTime(now, steps[..n]), steps[n].env.now);
      DeliverBills(steps[n].env, before.st, rs + before.receipts, since, steps[n].event);
      var more := Deliver(steps[n].env, before.st, steps[n].event).receipts;
      assert rs + (before.receipts + more) == rs + before.receipts + more;
    }
  }

  /** Accounts opened at the given leases: those that have started are billed from where they
      were last settled. */
  function Opening(leases: map<Uuid, Lease>): map<Uuid, Time> {
    map u | u in leases && leases[u].state != Pending :: leases[u].lastSettledAt
  }

  lemma OpeningIsRight(leases: map<Uuid, Lease>)
    ensures BillRight(leases, [], Opening(leases))
  {
    hide Rate;
  }

  /** The bill of one lease over a run: per denomination at most its rate for the whole seconds it
      was billed for; if it never ran short, at least that less one second per extra settlement;
      nothing if it never became active. */
  ghost predicate FairBill(st: Store, out: Out, u: Uuid, d: string) {
    u in out.st.leases && WithinFor(out.receipts, u) ==>
      var l, rs := out.st.leases[u], out.receipts;
      if l.state == Active || l.state == Closed then
        var from := BilledFrom(Opening(st.leases), u, l);
        && from.Some?
        && var elapsed := Whole(l.lastSettledAt - from.value);
           && PaidFor(rs, u, d) <= Rate(l.items, d) * elapsed
           && (FullFor(rs, u) && CountOf(rs, u) > 0 ==>
                 PaidFor(rs, u, d) >= Rate(l.items, d) * (elapsed - (CountOf(rs, u) - 1)))
      else
        PaidFor(rs, u, d) == 0
  }

  /** Whole-life bound, for every run from every good store and every lease on its own.  A lease
      that is created or acknowledged during the run is billed from its acknowledgement; one that
      was running at the start, from its settlement before it. */
  lemma WholeLifeBound(st: Store, now: Time, steps: seq<Step>, u: Uuid, d: string)
    requires Good(st) && FreshRun(st, steps) && Timely(st.leases, now) && Clocked(now, steps)
    ensures FairBill(st, Run(st, steps), u, d)
  {
    hide Good, Timely, Run, PaidFor, SecondsOf, CountOf, FullFor, WithinFor, Rate, Clocked, FreshRun, BillRight, Opening, BilledFrom;
    OpeningIsRight(st.leases);
    RunBills(st, [], Opening(st.leases), now, steps);
    var out := Run(st, steps);
    assert [] + out.receipts == out.receipts;
    if u in out.st.leases && WithinFor(out.receipts, u) {
      BillGivesBound(out.st.leases, out.receipts, Opening(st.leases), u, d);
    }
  }

  /** The same with a history from before the run. */
  lemma BillGivesBound(leases: map<Uuid, Lease>, rs: seq<Receipt>, since: map<Uuid, Time>, u: Uuid, d: string)
    requires BillRight(leases, rs, since) && u in leases && WithinFor(rs, u)
    ensures var l := leases[u];
            if l.state == Active || l.state == Closed then
              var from := BilledFrom(since, u, l);
              && from.Some?
              && var elapsed := Whole(l.lastSettledAt - from.value);
                 && PaidFor(rs, u, d) <= Rate(l.items, d) * elapsed
                 && (FullFor(rs, u) && CountOf(rs, u) > 0 ==>
                       PaidFor(rs, u, d) >= Rate(l.items, d) * (elapsed - (CountOf(rs, u) - 1)))
            else PaidFor(rs, u, d) == 0
  {
    hide PaidFor, SecondsOf, CountOf, WithinFor, FullFor, Rate, Whole, BilledFrom;
    var l, from := leases[u], BilledFrom(since, u, leases[u]);
    assert BilledLease(l, from, SecondsOf(rs, u), CountOf(rs, u));
    assert PaidAt(Rate(l.items, d), rs, u, d);
    if l.state == Active || l.state == Closed {
      var elapsed := Whole(l.lastSettledAt - from.value);
      Scaled(Rate(l.items, d), SecondsOf(rs, u), elapsed);
      Scaled(Rate(l.items, d), elapsed - (CountOf(rs, u) - 1), SecondsOf(rs, u));
    }
  }

  lemma Scaled(rate: nat, a: int, b: int)
    ensures a <= b ==> rate * a <= rate * b
  {
  }
}
