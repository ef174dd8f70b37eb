/** Whole runs of the keeper: every block and message in turn, executed by the handlers. */
module Chain {
  import Coins
  import Names
  import Reservations
  import opened Types
  import opened DomainIndex
  import opened Ledger
  import opened Invariants
  import opened Reachable
  import opened BillingKeeper
  import opened Messages
  import opened Lifetime
  import Genesis
  import UuidV7

  /** One event, dispatched to its handler. */
  method DeliverEvent(ms: MsgServer, env: Env, ev: Event) returns (inconsistent: bool)
    requires Keyed(ms.k.State())
    modifies ms.k
    ensures ms.k.State() == Deliver(env, old(ms.k.State()), ev).st
    ensures Consistent(old(ms.k.State())) ==> !inconsistent
  {
    inconsistent := false;
    hide Consistent, Keyed, FundCredit, CreateLease, CreateLeaseForTenant, AcknowledgeLease, RejectLease, CancelLease, CloseLease,
         WithdrawLeases, WithdrawAll, SetItemCustomDomain, UpdateParams, EndBlock, UuidV7.Generate, UuidV7.IsValidUUIDv7;
    match ev {
      case Fund(sender, tenant, amount) => var _ := ms.FundCredit(sender, tenant, amount);
      case Create(tenant, inputs, metaHash) => var _ := ms.CreateLease(env, tenant, inputs, metaHash);
      case CreateFor(sender, tenant, inputs, metaHash) => var _ := ms.CreateLeaseForTenant(env, sender, tenant, inputs, metaHash);
      case Acknowledge(sender, us) => var _, reported := ms.AcknowledgeLease(env, sender, us); inconsistent := reported;
      case Reject(sender, us, reason) => var _, reported := ms.RejectLease(env, sender, us, reason); inconsistent := reported;
      case Cancel(tenant, us) => var _, reported := ms.CancelLease(env, tenant, us); inconsistent := reported;
      case Close(sender, us, reason) => var _, reported := ms.CloseLease(env, sender, us, reason); inconsistent := reported;
      case Withdraw(sender, us) => var _, reported := ms.WithdrawFromLeases(env, sender, us); inconsistent := reported;
      case Sweep(sender, provider, limit) => var _, reported := ms.WithdrawFromProvider(env, sender, provider, limit); inconsistent := reported;
      case SetDomain(sender, u, service, domain) => var _ := ms.SetItemCustomDomain(env, sender, u, service, domain);
      case SetParams(sender, params) => var _ := ms.UpdateParams(env, sender, params);
      case BlockEnd => inconsistent := ms.k.EndBlocker(env);
      case External(bank) => ms.k.bank := bank;
    }
  }

  // ---------------------------------------------------------------- records stay filed

  lemma SetLeaseKeepsKeyed(st: Store, l: Lease)
    requires Keyed(st) && SetLease(st, l).Ok?
    ensures Keyed(SetLease(st, l).value)
  {
    hide Reconcile, CreditIndexOf, AccountsFiled;
  }

  lemma MoveKeepsKeyed(st: Store, l: Lease, c: AccountChange, wrap: bool)
    requires Keyed(st) && Move(st, l, c, wrap).Ok?
    ensures Keyed(Move(st, l, c, wrap).value)
  {
    hide SetLease, SetAccount, Changed;
    SetLeaseKeepsKeyed(st, l);
    var st1 := SetLease(st, l).value;
    AccountIsFiled(st1, l.tenant);
    SetAccountKeepsKeyed(st1, Changed(st1.accounts[l.tenant], c));
  }

  lemma AccountIsFiled(st: Store, t: Address)
    requires Keyed(st) && t in st.accounts
    ensures st.accounts[t].tenant == t && st.accounts[t].creditAddress == Credit(t)
  {
    hide CreditIndexOf, LeasesFiled;
  }

  lemma OneKeepsKeyed(op: Op, env: Env, st: Store, u: Uuid)
    requires Keyed(st) && One(op, env, st, u).Ok?
    ensures Keyed(One(op, env, st, u).value.st)
  {
    hide Keyed, Move, SetLease, Settle, Exhausted, WithdrawOne, SweepOne, Finish;
    if Strict(op, env, st, u).Ok? {
      var l := st.leases[u];
      match op
      case OpAcknowledge => MoveKeepsKeyed(st, Acknowledged(l, env.now), Promote, true);
      case OpReject(reason) => MoveKeepsKeyed(st, RejectedLease(l, env.now, reason), DropPending(Release(st, l)), true);
      case OpExpire => MoveKeepsKeyed(st, ExpiredLease(l, env.now), DropPending(Release(st, l)), false);
      case OpClose(reason) =>
        var exhausted := ShouldAutoClose(st.bank, l, env.now).value;
        FinishKeepsKeyed(st, env, l, exhausted, if exhausted then CREDIT_EXHAUSTED else reason, true);
      case OpWithdraw => WithdrawKeepsKeyed(st, env, l);
      case OpSweep => SweepKeepsKeyed(st, env, l);
    }
  }

  lemma BankKeepsKeyed(st: Store, bank: Bank)
    requires Keyed(st)
    ensures Keyed(st.(bank := bank))
  {
    hide CreditIndexOf, LeasesFiled, AccountsFiled;
  }

  lemma FinishKeepsKeyed(st: Store, env: Env, l: Lease, silent: bool, reason: string, wrap: bool)
    requires Keyed(st) && Finish(st, env, l, silent, reason, wrap).Ok?
    ensures Keyed(Finish(st, env, l, silent, reason, wrap).value.st)
  {
    hide Keyed, Settle, Move, ClosedLease, Release;
    var bank := Settle(st.bank, env.catalog, l, env.now, silent).value.bank;
    BankKeepsKeyed(st, bank);
    MoveKeepsKeyed(st.(bank := bank), ClosedLease(l, env.now, reason), DropActive(Release(st, l)), wrap);
  }

  lemma WithdrawKeepsKeyed(st: Store, env: Env, l: Lease)
    requires Keyed(st) && WithdrawOne(st, env, l).Ok?
    ensures Keyed(WithdrawOne(st, env, l).value.st)
  {
    hide Keyed, Settle, SetLease, Finish, ShouldAutoClose;
    if ShouldAutoClose(st.bank, l, env.now).value {
      FinishKeepsKeyed(st, env, l, true, CREDIT_EXHAUSTED, false);
    } else {
      var at := SettleTime(l, env.now);
      var s := Settle(st.bank, env.catalog, l, at, false).value;
      if s.accrued != Coins.NO_COINS {
        BankKeepsKeyed(st, s.bank);
        SetLeaseKeepsKeyed(st.(bank := s.bank), l.(lastSettledAt := at));
      }
    }
  }

  lemma SweepKeepsKeyed(st: Store, env: Env, l: Lease)
    requires Keyed(st) && SweepOne(st, env, l).Ok?
    ensures Keyed(SweepOne(st, env, l).value.st)
  {
    hide Keyed, Settle, SetLease, Finish, ShouldAutoClose;
    if ShouldAutoClose(st.bank, l, env.now).value {
      FinishKeepsKeyed(st, env, l, true, CREDIT_EXHAUSTED, false);
    } else {
      var at := SettleTime(l, env.now);
      if at > l.lastSettledAt {
        var s := Settle(st.bank, env.catalog, l, at, true).value;
        if s.transfer != Coins.NO_COINS {
          BankKeepsKeyed(st, s.bank);
          SetLeaseKeepsKeyed(st.(bank := s.bank), l.(lastSettledAt := at));
        }
      }
    }
  }

  lemma {:induction false} BatchKeepsKeyed(op: Op, env: Env, st: Store, us: seq<Uuid>)
    requires Keyed(st) && Batch(op, env, st, us).Ok?
    ensures Keyed(Batch(op, env, st, us).value.st)
    decreases |us|
  {
    hide Keyed, One;
    if us != [] {
      BatchKeepsKeyed(op, env, st, us[..|us| - 1]);
      OneKeepsKeyed(op, env, Batch(op, env, st, us[..|us| - 1]).value.st, us[|us| - 1]);
    }
  }

  lemma CreateKeepsKeyed(env: Env, st: Store, tenant: Address, inputs: seq<LeaseItemInput>, metaHash: seq<int>)
    requires Keyed(st) && CreateLease(env, st, tenant, inputs, metaHash).Ok?
    ensures Keyed(CreateLease(env, st, tenant, inputs, metaHash).value.st)
  {
    hide CreateLease, Keyed, SetLease, SetAccount;
    var l := CreateWrites(env, st, tenant, inputs, metaHash);
    var ca := Reserve(st.accounts[tenant], Coins.Scale(Reservations.Rates(l.items), st.params.minLeaseDuration));
    AccountIsFiled(st, tenant);
    var st0 := st.(sequence := st.sequence + 1);
    SequenceKeepsKeyed(st);
    SetLeaseKeepsKeyed(st0, l);
    SetAccountKeepsKeyed(SetLease(st0, l).value, ca);
  }

  lemma SequenceKeepsKeyed(st: Store)
    requires Keyed(st)
    ensures Keyed(st.(sequence := st.sequence + 1))
  {
    hide CreditIndexOf, LeasesFiled, AccountsFiled;
  }

  lemma FundKeepsKeyed(st: Store, sender: Address, tenant: Address, amount: Coins.Coin)
    requires Keyed(st) && FundCredit(st, sender, tenant, amount).Ok?
    ensures Keyed(FundCredit(st, sender, tenant, amount).value.st)
  {
    hide Keyed, SetAccount, Send;
    var bank := Send(st.bank, sender, Credit(tenant), Coins.Single(amount)).value;
    BankKeepsKeyed(st, bank);
    if tenant in st.accounts {
      AccountIsFiled(st, tenant);
    }
    SetAccountKeepsKeyed(st.(bank := bank), if tenant in st.accounts then st.accounts[tenant] else NewAccount(tenant));
  }

  lemma SetDomainKeepsKeyed(env: Env, st: Store, sender: Address, u: Uuid, service: string, raw: string)
    requires Keyed(st) && SetItemCustomDomain(env, st, sender, u, service, raw).Ok?
    ensures Keyed(SetItemCustomDomain(env, st, sender, u, service, raw).value.st)
  {
    hide Keyed, SetLease, DomainEdit, Names.ValidFqdn, Names.ValidLabel, UuidV7.IsValidUUIDv7;
    var edit := DomainEdit(env, st, sender, u, service, raw).value;
    if edit.Some? {
      SetLeaseKeepsKeyed(st, edit.value);
    }
  }

  lemma ParamsKeepKeyed(env: Env, st: Store, sender: Address, params: Params)
    requires Keyed(st) && UpdateParams(env, st, sender, params).Ok?
    ensures Keyed(UpdateParams(env, st, sender, params).value.st)
  {
    hide ValidParams, CreditIndexOf, LeasesFiled, AccountsFiled;
  }

  /** Every event leaves records filed, even a creation that meets an identifier in use. */
  lemma DeliverKeepsKeyed(env: Env, st: Store, ev: Event)
    requires Keyed(st)
    ensures Keyed(Deliver(env, st, ev).st)
  {
    hide Keyed, FundCredit, CreateLease, CreateLeaseForTenant, AcknowledgeLease, RejectLease, CancelLease, CloseLease, WithdrawLeases, WithdrawAll, SetItemCustomDomain, UpdateParams, EndBlock, Batch, BatchTargets;
    if Handle(env, st, ev).Ok? {
      if IsBatch(ev) {
        HandleIsBatch(env, st, ev);
        BatchKeepsKeyed(BatchOp(ev), env, st, BatchTargets(env, st, ev));
      } else if Creates(ev) {
        CreationIsCreateLease(env, st, ev);
        CreateKeepsKeyed(env, st, ev.tenant, ev.inputs, ev.metaHash);
      } else if ev.Fund? {
        FundKeepsKeyed(st, ev.sender, ev.tenant, ev.amount);
      } else if ev.SetDomain? {
        SetDomainKeepsKeyed(env, st, ev.sender, ev.uuid, ev.service, ev.domain);
      } else if ev.SetParams? {
        ParamsKeepKeyed(env, st, ev.sender, ev.params);
      } else {
        BankKeepsKeyed(st, ev.bank);
      }
    }
  }

  // ---------------------------------------------------------------- whole runs

  lemma RunNext(st: Store, steps: seq<Step>, i: nat)
    requires i < |steps|
    ensures Run(st, steps[..i + 1]).st == Deliver(steps[i].env, Run(st, steps[..i]).st, steps[i].event).st
  {
    hide Deliver;
    assert steps[..i + 1][..i] == steps[..i];
  }

  lemma PrefixIsFresh(st: Store, steps: seq<Step>, i: nat)
    requires i <= |steps| && FreshRun(st, steps)
    ensures FreshRun(st, steps[..i])
    decreases |steps|
  {
    hide Run, Handle, NextUuid;
    if i == |steps| {
      assert steps[..i] == steps;
    } else {
      var n := |steps| - 1;
      PrefixIsFresh(st, steps[..n], i);
      assert steps[..n][..i] == steps[..i];
    }
  }

  /** The reservations can be relied on throughout the run. */
  ghost predicate Dependable(st: Store, steps: seq<Step>) {
    Good(st) && FreshRun(st, steps) && ReservedExactly(st) && (NoLegacy(st.leases) || SameMinimum(steps, st.params.minLeaseDuration))
  }

  lemma ConsistentAlongRun(st: Store, steps: seq<Step>, i: nat)
    requires Dependable(st, steps) && i <= |steps|
    ensures Consistent(Run(st, steps[..i]).st)
  {
    hide Run, FreshRun, ReservedExactly, NoLegacy, Indexed;
    PrefixIsFresh(st, steps, i);
    RunKeepsGood(st, steps[..i]);
    RunKeepsReserved(st, steps[..i]);
  }

  /** Executing any run leaves the keeper in the store that the state machine reaches.  In a run
      that keeps the reservation invariant no handler and no block ever reports an inconsistency. */
  method ExecuteRun(ms: MsgServer, steps: seq<Step>) returns (inconsistent: bool)
    requires Keyed(ms.k.State())
    modifies ms.k
    ensures ms.k.State() == Run(old(ms.k.State()), steps).st && Keyed(ms.k.State())
    ensures Dependable(old(ms.k.State()), steps) ==> !inconsistent
  {
    ghost var st := ms.k.State();
    assert steps[..0] == [] && Run(st, []).st == st;
    hide Run, Deliver, Keyed, Dependable, Consistent;
    inconsistent := false;
    for i := 0 to |steps|
      invariant ms.k.State() == Run(st, steps[..i]).st && Keyed(ms.k.State())
      invariant Dependable(st, steps) ==> !inconsistent
    {
      RunNext(st, steps, i);
      DeliverKeepsKeyed(steps[i].env, ms.k.State(), steps[i].event);
      if Dependable(st, steps) {
        ConsistentAlongRun(st, steps, i);
      }
      var reported := DeliverEvent(ms, steps[i].env, steps[i].event);
      inconsistent := inconsistent || reported;
    }
    assert steps[..|steps|] == steps;
  }

  /** Export, then import into a new chain at a later block time: the new keeper holds the same
      store, indexes included. */
  method Restart(source: Keeper, env: Env) returns (target: Keeper)
    requires Indexed(source.State()) && Timely(source.leases, env.now)
    requires forall u :: u in source.leases ==> Genesis.Known(env.catalog, source.leases[u])
    ensures fresh(target) && target.State() == source.State()
  {
    hide Timely, Genesis.Known, Genesis.IsExport, Exact, SkuExact, Sheltered, Counted, Keyed, Genesis.InitGenesis;
    var g := source.ExportGenesis();
    target := new Keeper.Stage(EmptyStore(source.params, source.bank));
    Genesis.RoundTrip(env, source.State(), g, target.State());
    var _ := target.InitGenesis(env, g);
  }
}
