/** What every event keeps: the indexes and the cached counters of the store agree with the
    lease map, and every account's reserved amounts are the sum of its live leases'
    reservations. */
module Invariants {
  import opened Coins
  import opened Types
  import opened Reservations
  import opened DomainIndex
  import opened Sums
  import opened Ledger

  // ---------------------------------------------------------------- the invariants

  /** Records are filed under their own keys, and the credit-address index is the inverse of
      the account map. */
  ghost predicate Keyed(st: Store) {
    LeasesFiled(st.leases) && AccountsFiled(st.accounts) && st.creditIndex == CreditIndexOf(st.accounts)
  }

  predicate LeasesFiled(leases: map<Uuid, Lease>) {
    forall u :: u in leases ==> leases[u].uuid == u
  }

  predicate AccountsFiled(accounts: map<Address, CreditAccount>) {
    forall t :: t in accounts ==> accounts[t].tenant == t && accounts[t].creditAddress == Credit(t)
  }

  /** Derived credit address to tenant. */
  function CreditIndexOf(accounts: map<Address, CreditAccount>): map<Address, Address> {
    map t | t in accounts :: Credit(t) := t
  }

  lemma CreditIndexFollows(accounts: map<Address, CreditAccount>, t: Address, ca: CreditAccount)
    ensures CreditIndexOf(accounts[t := ca]) == CreditIndexOf(accounts)[Credit(t) := t]
    ensures t in accounts ==> CreditIndexOf(accounts)[Credit(t) := t] == CreditIndexOf(accounts)
  {
    var idx, idx' := CreditIndexOf(accounts), CreditIndexOf(accounts[t := ca]);
    forall a ensures a in idx' <==> a == Credit(t) || a in idx {
      if a in idx { assert a.tenant in accounts; }
    }
  }

  predicate Uses(l: Lease, sku: string) {
    exists it :: it in l.items && it.skuUuid == sku
  }

  /** The SKU index lists exactly the pairs that occur in leases. */
  ghost predicate SkuExact(index: set<(string, Uuid)>, leases: map<Uuid, Lease>) {
    forall k, u :: (k, u) in index <==> u in leases && Uses(leases[u], k)
  }

  /** Every live lease has a credit account. */
  predicate Sheltered(leases: map<Uuid, Lease>, accounts: map<Address, CreditAccount>) {
    forall u :: u in leases && Live(leases[u]) ==> leases[u].tenant in accounts
  }

  function ActiveOf(t: Address): Lease -> nat {
    (l: Lease) => if l.tenant == t && l.state == Active then 1 else 0
  }

  function PendingOf(t: Address): Lease -> nat {
    (l: Lease) => if l.tenant == t && l.state == Pending then 1 else 0
  }

  function ReservedOf(t: Address, d: string, minLeaseDuration: nat): Lease -> nat {
    (l: Lease) => if l.tenant == t && Live(l) then AmountOf(Reservation(l, minLeaseDuration), d) else 0
  }

  /** The cached counters are the true counts. */
  ghost predicate Counted(leases: map<Uuid, Lease>, accounts: map<Address, CreditAccount>) {
    forall t :: t in accounts ==>
      && accounts[t].activeLeaseCount == Sum(leases, ActiveOf(t))
      && accounts[t].pendingLeaseCount == Sum(leases, PendingOf(t))
  }

  /** Each account reserves exactly the sum of the reservations of its live leases. */
  ghost predicate Reserves(leases: map<Uuid, Lease>, accounts: map<Address, CreditAccount>, min: nat) {
    forall t, d :: t in accounts ==> AmountOf(accounts[t].reservedAmounts, d) == Sum(leases, ReservedOf(t, d, min))
  }

  /** The reservation invariant. */
  ghost predicate ReservedExactly(st: Store) {
    Reserves(st.leases, st.accounts, st.params.minLeaseDuration)
  }

  /** No live lease depends on the current minimum duration for its reservation. */
  predicate NoLegacy(leases: map<Uuid, Lease>) {
    forall u :: u in leases && Live(leases[u]) ==> leases[u].minLeaseDurationAtCreation > 0
  }

  /** Everything but the reservation invariant. */
  ghost predicate Indexed(st: Store) {
    && Keyed(st) && SkuExact(st.skuIndex, st.leases) && Exact(st.domainIndex, st.leases)
    && Sheltered(st.leases, st.accounts) && Counted(st.leases, st.accounts) && |st.leases| <= st.sequence
  }

  // ---------------------------------------------------------------- one lease transition

  /** What a lease keeps for life. */
  predicate SameContract(l: Lease, l': Lease) {
    && l'.uuid == l.uuid && l'.tenant == l.tenant && l'.providerUuid == l.providerUuid && l'.items == l.items
    && l'.createdAt == l.createdAt && l'.metaHash == l.metaHash
    && l'.minLeaseDurationAtCreation == l.minLeaseDurationAtCreation
  }

  /** The lifecycle: pending leases become active, rejected or expired, active ones closed. */
  predicate MayBecome(s: LeaseState, s': LeaseState) {
    s' == s || (s == Pending && (s' == Active || s' == Rejected || s' == Expired)) || (s == Active && s' == Closed)
  }

  predicate Evolves(l: Lease, l': Lease) {
    SameContract(l, l') && MayBecome(l.state, l'.state)
  }

  /** The account change that belongs to a transition. */
  predicate Fits(st: Store, l: Lease, l': Lease, c: AccountChange) {
    match c
    case Promote => l.state == Pending && l'.state == Active
    case DropPending(released) => l.state == Pending && (l'.state == Rejected || l'.state == Expired) && released == Release(st, l)
    case DropActive(released) => l.state == Active && l'.state == Closed && released == Release(st, l)
  }

  ghost predicate Transition(st: Store, l': Lease, c: AccountChange) {
    l'.uuid in st.leases && SameContract(st.leases[l'.uuid], l') && Fits(st, st.leases[l'.uuid], l', c)
  }

  /** The clamped decrement is never clamped: a counter that is about to be decremented is
      positive, and the reservation that is about to be released is covered. */
  lemma NoUnderflow(st: Store, u: Uuid)
    requires u in st.leases && Live(st.leases[u]) && Sheltered(st.leases, st.accounts) && Counted(st.leases, st.accounts)
    ensures var ca := st.accounts[st.leases[u].tenant];
            && (st.leases[u].state == Active ==> ca.activeLeaseCount > 0)
            && (st.leases[u].state == Pending ==> ca.pendingLeaseCount > 0)
            && (ReservedExactly(st) ==> Covers(ca.reservedAmounts, Release(st, st.leases[u])))
  {
    var l := st.leases[u];
    var t := l.tenant;
    SumBound(st.leases, ActiveOf(t), u);
    SumBound(st.leases, PendingOf(t), u);
    if ReservedExactly(st) {
      forall d | d in Release(st, l) ensures AmountOf(st.accounts[t].reservedAmounts, d) >= Release(st, l)[d] {
        SumBound(st.leases, ReservedOf(t, d, st.params.minLeaseDuration), u);
      }
    }
  }

  /** What the code reports as a data inconsistency before an account change: a counter that is
      already zero, or more to release than is reserved. */
  predicate Inconsistent(ca: CreditAccount, c: AccountChange) {
    match c
    case Promote => ca.pendingLeaseCount == 0
    case DropPending(released) => ca.pendingLeaseCount == 0 || !Covers(ca.reservedAmounts, released)
    case DropActive(released) => ca.activeLeaseCount == 0 || !Covers(ca.reservedAmounts, released)
  }

  ghost predicate Consistent(st: Store) { Indexed(st) && ReservedExactly(st) }

  /** In a consistent store no change of a live lease's account is reported. */
  lemma NeverInconsistent(st: Store, u: Uuid)
    requires Consistent(st) && u in st.leases && Live(st.leases[u])
    ensures st.leases[u].tenant in st.accounts
    ensures var l := st.leases[u];
            var ca := st.accounts[l.tenant];
            && (l.state == Pending ==> !Inconsistent(ca, Promote) && !Inconsistent(ca, DropPending(Release(st, l))))
            && (l.state == Active ==> !Inconsistent(ca, DropActive(Release(st, l))))
  {
    hide Exact, SkuExact, Keyed, Counted, ReservedExactly, Covers, Release;
    NoUnderflow(st, u);
  }

  /** An account change that is not reported is exact: nothing was clamped. */
  lemma UnreportedChangeIsExact(ca: CreditAccount, c: AccountChange, d: string)
    requires !Inconsistent(ca, c)
    ensures c.DropPending? || c.DropActive? ==>
              AmountOf(Changed(ca, c).reservedAmounts, d) == AmountOf(ca.reservedAmounts, d) - AmountOf(c.released, d)
    ensures Changed(ca, c).pendingLeaseCount == ca.pendingLeaseCount - (if c.DropActive? then 0 else 1)
    ensures Changed(ca, c).activeLeaseCount == ca.activeLeaseCount + (match c case Promote => 1 case DropActive(_) => -1 case DropPending(_) => 0)
  {
  }

  /** In a consistent store the clamped updates of a live lease's account are exact. */
  lemma DropsAreExact(st: Store, u: Uuid, d: string)
    requires Consistent(st) && u in st.leases && Live(st.leases[u])
    ensures st.leases[u].tenant in st.accounts
    ensures var l := st.leases[u];
            var ca, released := st.accounts[l.tenant], Release(st, l);
            var ca' := Changed(ca, if l.state == Active then DropActive(released) else DropPending(released));
            && AmountOf(ca'.reservedAmounts, d) == AmountOf(ca.reservedAmounts, d) - AmountOf(released, d)
            && ca'.activeLeaseCount + ca'.pendingLeaseCount == ca.activeLeaseCount + ca.pendingLeaseCount - 1
  {
    hide Consistent, Inconsistent, Changed, Release;
    NeverInconsistent(st, u);
    var l := st.leases[u];
    var c := if l.state == Active then DropActive(Release(st, l)) else DropPending(Release(st, l));
    UnreportedChangeIsExact(st.accounts[l.tenant], c, d);
  }

  lemma SetAccountKeepsKeyed(st: Store, ca: CreditAccount)
    requires Keyed(st) && ca.creditAddress == Credit(ca.tenant)
    ensures Keyed(SetAccount(st, ca))
  {
    CreditIndexFollows(st.accounts, ca.tenant, ca);
    hide CreditIndexOf, LeasesFiled;
  }

  predicate MovesBetween(l: Lease, l': Lease, c: AccountChange) {
    && l'.uuid == l.uuid && l'.tenant == l.tenant
    && match c
       case Promote => l.state == Pending && l'.state == Active
       case DropPending(_) => l.state == Pending && Terminal(l')
       case DropActive(_) => l.state == Active && Terminal(l')
  }

  lemma CountsFollow(leases: map<Uuid, Lease>, l': Lease, c: AccountChange, ca: CreditAccount)
    requires l'.uuid in leases && MovesBetween(leases[l'.uuid], l', c)
    requires ca.activeLeaseCount == Sum(leases, ActiveOf(l'.tenant))
    requires ca.pendingLeaseCount == Sum(leases, PendingOf(l'.tenant))
    ensures Changed(ca, c).activeLeaseCount == Sum(leases[l'.uuid := l'], ActiveOf(l'.tenant))
    ensures Changed(ca, c).pendingLeaseCount == Sum(leases[l'.uuid := l'], PendingOf(l'.tenant))
  {
    hide Monus, Sum;
    var u, t := l'.uuid, l'.tenant;
    SumUpdate(leases, ActiveOf(t), u, l');
    SumUpdate(leases, PendingOf(t), u, l');
    SumBound(leases, ActiveOf(t), u);
    SumBound(leases, PendingOf(t), u);
  }

  lemma ReservedFollows(leases: map<Uuid, Lease>, l': Lease, c: AccountChange, ca: CreditAccount, d: string, min: nat)
    requires l'.uuid in leases && MovesBetween(leases[l'.uuid], l', c)
    requires Reservation(l', min) == Reservation(leases[l'.uuid], min)
    requires !c.Promote? ==> c.released == Reservation(leases[l'.uuid], min)
    requires AmountOf(ca.reservedAmounts, d) == Sum(leases, ReservedOf(l'.tenant, d, min))
    ensures AmountOf(Changed(ca, c).reservedAmounts, d) == Sum(leases[l'.uuid := l'], ReservedOf(l'.tenant, d, min))
  {
    hide Reservation;
    var w := ReservedOf(l'.tenant, d, min);
    SumUpdate(leases, w, l'.uuid, l');
    SumBound(leases, w, l'.uuid);
    assert w(leases[l'.uuid]) == AmountOf(Reservation(l', min), d);
  }

  /** The other tenants' sums do not move. */
  lemma OthersUnmoved(leases: map<Uuid, Lease>, l': Lease, w: Lease -> nat)
    requires w(l') == 0 && (l'.uuid in leases ==> w(leases[l'.uuid]) == 0)
    ensures Sum(leases[l'.uuid := l'], w) == Sum(leases, w)
  {
    SumUpdate(leases, w, l'.uuid, l');
  }

  lemma SkuIndexFollows(st: Store, l': Lease, st': Store)
    requires SkuExact(st.skuIndex, st.leases) && l'.uuid in st.leases && st.leases[l'.uuid].items == l'.items
    requires st'.leases == st.leases[l'.uuid := l'] && st'.skuIndex == st.skuIndex + SkuEntries(l')
    ensures SkuExact(st'.skuIndex, st'.leases)
  {
    forall k, u
      ensures (k, u) in st'.skuIndex <==> u in st'.leases && Uses(st'.leases[u], k)
    {
      assert (k, u) in SkuEntries(l') <==> u == l'.uuid && Uses(l', k);
    }
  }

  /** A lease write that takes no new domain succeeds and changes the lease and its index entries only. */
  lemma RewriteSucceeds(st: Store, l': Lease)
    requires Exact(st.domainIndex, st.leases)
    requires Claims(l') == map[] || (l'.uuid in st.leases && Claims(l') == Claims(st.leases[l'.uuid]))
    ensures SetLease(st, l').Ok?
    ensures var st' := SetLease(st, l').value;
            && st' == st.(leases := st.leases[l'.uuid := l'], skuIndex := st.skuIndex + SkuEntries(l'), domainIndex := st'.domainIndex)
            && Exact(st'.domainIndex, st'.leases)
  {
    hide Exact, Reconcile, SkuEntries, Claims;
    KeepingDomainsSucceeds(st.domainIndex, st.leases, l');
    ReconcileExact(st.domainIndex, st.leases, l');
  }

  /** A transition cannot be refused, and it writes just the lease and its tenant's account. */
  lemma MoveSucceeds(st: Store, l': Lease, c: AccountChange, wrap: bool)
    requires Keyed(st) && Exact(st.domainIndex, st.leases) && Sheltered(st.leases, st.accounts) && Transition(st, l', c)
    ensures Move(st, l', c, wrap).Ok?
    ensures var st' := Move(st, l', c, wrap).value;
            && st'.leases == st.leases[l'.uuid := l']
            && st'.accounts == st.accounts[l'.tenant := Changed(st.accounts[l'.tenant], c)]
            && st'.creditIndex == st.creditIndex
            && st'.skuIndex == st.skuIndex + SkuEntries(l')
            && st'.params == st.params && st'.sequence == st.sequence && st'.bank == st.bank
            && Exact(st'.domainIndex, st'.leases)
  {
    TransitionKeepsRecords(st, l', c);
    hide Exact, SetLease, Changed, SkuEntries, CreditIndexOf, LeasesFiled, AccountsFiled, Transition, Sheltered, Claims;
    RewriteSucceeds(st, l');
    CreditIndexFollows(st.accounts, l'.tenant, Changed(st.accounts[l'.tenant], c));
  }

  lemma CountedFollows(st: Store, l': Lease, c: AccountChange, st': Store)
    requires Counted(st.leases, st.accounts) && Sheltered(st.leases, st.accounts) && Transition(st, l', c)
    requires st'.leases == st.leases[l'.uuid := l']
    requires st'.accounts == st.accounts[l'.tenant := Changed(st.accounts[l'.tenant], c)]
    ensures Counted(st'.leases, st'.accounts)
  {
    forall t | t in st'.accounts
      ensures st'.accounts[t].activeLeaseCount == Sum(st'.leases, ActiveOf(t))
      ensures st'.accounts[t].pendingLeaseCount == Sum(st'.leases, PendingOf(t))
    {
      if t == l'.tenant {
        CountsFollow(st.leases, l', c, st.accounts[t]);
      } else {
        OthersUnmoved(st.leases, l', ActiveOf(t));
        OthersUnmoved(st.leases, l', PendingOf(t));
      }
    }
  }

  lemma TransitionKeepsReservation(st: Store, l': Lease, c: AccountChange)
    requires Transition(st, l', c)
    ensures var min := st.params.minLeaseDuration;
            && Reservation(l', min) == Reservation(st.leases[l'.uuid], min)
            && MovesBetween(st.leases[l'.uuid], l', c)
            && (!c.Promote? ==> c.released == Reservation(st.leases[l'.uuid], min))
  {
    hide Rates, Scale, Claims;
  }

  lemma ReservationsFollow(st: Store, l': Lease, c: AccountChange, st': Store)
    requires ReservedExactly(st) && Sheltered(st.leases, st.accounts) && Transition(st, l', c)
    requires st'.leases == st.leases[l'.uuid := l'] && st'.params == st.params
    requires st'.accounts == st.accounts[l'.tenant := Changed(st.accounts[l'.tenant], c)]
    ensures ReservedExactly(st')
  {
    hide Changed, Reservation, Rates;
    var min := st.params.minLeaseDuration;
    TransitionKeepsReservation(st, l', c);
    forall t, d | t in st'.accounts
      ensures AmountOf(st'.accounts[t].reservedAmounts, d) == Sum(st'.leases, ReservedOf(t, d, min))
    {
      if t == l'.tenant {
        ReservedFollows(st.leases, l', c, st.accounts[t], d, min);
      } else {
        OthersUnmoved(st.leases, l', ReservedOf(t, d, min));
      }
    }
  }

  lemma SameSize<K, V>(m: map<K, V>, k: K, v: V)
    requires k in m
    ensures |m[k := v]| == |m|
  {
    assert m[k := v].Keys == m.Keys;
    assert |m[k := v]| == |m[k := v].Keys|;
    assert |m| == |m.Keys|;
  }

  lemma FiledFollows(leases: map<Uuid, Lease>, l': Lease, accounts: map<Address, CreditAccount>, ca': CreditAccount)
    requires LeasesFiled(leases) && AccountsFiled(accounts) && ca'.creditAddress == Credit(ca'.tenant)
    ensures LeasesFiled(leases[l'.uuid := l']) && AccountsFiled(accounts[ca'.tenant := ca'])
  {
  }

  lemma ShelteredFollows(st: Store, l': Lease, st': Store)
    requires Sheltered(st.leases, st.accounts) && l'.tenant in st.accounts
    requires st'.leases == st.leases[l'.uuid := l'] && st.accounts.Keys <= st'.accounts.Keys
    ensures Sheltered(st'.leases, st'.accounts)
  {
  }

  lemma KeyedFollows(st: Store, l': Lease, ca': CreditAccount, st': Store)
    requires Keyed(st) && ca'.tenant in st.accounts && ca'.creditAddress == Credit(ca'.tenant)
    requires st'.leases == st.leases[l'.uuid := l'] && st'.accounts == st.accounts[ca'.tenant := ca']
    requires st'.creditIndex == st.creditIndex
    ensures Keyed(st')
  {
    hide CreditIndexOf, LeasesFiled, AccountsFiled;
    CreditIndexFollows(st.accounts, ca'.tenant, ca');
    FiledFollows(st.leases, l', st.accounts, ca');
  }

  /** A transition keeps everything. */
  lemma MoveKeeps(st: Store, l': Lease, c: AccountChange, wrap: bool)
    requires Indexed(st) && Transition(st, l', c)
    ensures Move(st, l', c, wrap).Ok?
    ensures Indexed(Move(st, l', c, wrap).value)
    ensures ReservedExactly(st) ==> ReservedExactly(Move(st, l', c, wrap).value)
    ensures Move(st, l', c, wrap).value.leases == st.leases[l'.uuid := l']
    ensures Move(st, l', c, wrap).value.params == st.params
    ensures Move(st, l', c, wrap).value.sequence == st.sequence
  {
    hide Exact, Keyed, SkuExact, Sheltered, Counted, ReservedExactly, Transition, Changed, Move, SkuEntries;
    MoveSucceeds(st, l', c, wrap);
    var st' := Move(st, l', c, wrap).value;
    assert st'.leases == st.leases[l'.uuid := l'];
    TransitionKeepsRecords(st, l', c);
    SkuIndexFollows(st, l', st');
    KeyedFollows(st, l', Changed(st.accounts[l'.tenant], c), st');
    ShelteredFollows(st, l', st');
    SameSize(st.leases, l'.uuid, l');
    CountedFollows(st, l', c, st');
    if ReservedExactly(st) {
      ReservationsFollow(st, l', c, st');
    }
  }

  lemma TransitionKeepsRecords(st: Store, l': Lease, c: AccountChange)
    requires Transition(st, l', c) && Sheltered(st.leases, st.accounts) && Keyed(st)
    ensures l'.uuid in st.leases && st.leases[l'.uuid].items == l'.items && st.leases[l'.uuid].tenant == l'.tenant
    ensures l'.tenant in st.accounts && st.accounts[l'.tenant].tenant == l'.tenant
    ensures st.accounts[l'.tenant].creditAddress == Credit(l'.tenant)
    ensures Claims(l') == map[] || Claims(l') == Claims(st.leases[l'.uuid])
  {
    hide Reservation, CreditIndexOf;
  }

  // ---------------------------------------------------------------- rewriting a lease in place

  /** A rewrite that changes neither state, owner nor what is reserved. */
  ghost predicate Rewrite(l: Lease, l': Lease) {
    && l'.uuid == l.uuid && l'.tenant == l.tenant && l'.state == l.state
    && Rates(l'.items) == Rates(l.items) && l'.minLeaseDurationAtCreation == l.minLeaseDurationAtCreation
    && (forall k :: Uses(l', k) <==> Uses(l, k))
  }

  lemma RewriteKeepsSkus(st: Store, l': Lease, st': Store)
    requires SkuExact(st.skuIndex, st.leases) && l'.uuid in st.leases && Rewrite(st.leases[l'.uuid], l')
    requires st'.leases == st.leases[l'.uuid := l'] && st'.skuIndex == st.skuIndex + SkuEntries(l')
    ensures SkuExact(st'.skuIndex, st'.leases)
  {
    hide Rates, Uses;
    forall k, u ensures (k, u) in st'.skuIndex <==> u in st'.leases && Uses(st'.leases[u], k) {
      SkuEntriesAreUses(l', k, u);
    }
  }

  lemma SkuEntriesAreUses(l: Lease, k: string, u: Uuid)
    ensures (k, u) in SkuEntries(l) <==> u == l.uuid && Uses(l, k)
  {
  }

  lemma WeightUnmoved(leases: map<Uuid, Lease>, l': Lease, w: Lease -> nat)
    requires l'.uuid in leases && w(l') == w(leases[l'.uuid])
    ensures Sum(leases[l'.uuid := l'], w) == Sum(leases, w)
  {
    SumUpdate(leases, w, l'.uuid, l');
  }

  lemma RewriteKeepsCounts(leases: map<Uuid, Lease>, l': Lease, accounts: map<Address, CreditAccount>)
    requires l'.uuid in leases && Rewrite(leases[l'.uuid], l') && Counted(leases, accounts)
    ensures Counted(leases[l'.uuid := l'], accounts)
  {
    hide Rates, Sum;
    forall t | t in accounts
      ensures accounts[t].activeLeaseCount == Sum(leases[l'.uuid := l'], ActiveOf(t))
      ensures accounts[t].pendingLeaseCount == Sum(leases[l'.uuid := l'], PendingOf(t))
    {
      WeightUnmoved(leases, l', ActiveOf(t));
      WeightUnmoved(leases, l', PendingOf(t));
    }
  }

  lemma RewriteKeepsReserved(leases: map<Uuid, Lease>, l': Lease, accounts: map<Address, CreditAccount>, min: nat)
    requires l'.uuid in leases && Rewrite(leases[l'.uuid], l') && Reserves(leases, accounts, min)
    ensures Reserves(leases[l'.uuid := l'], accounts, min)
  {
    hide Rates, Sum, Scale;
    assert Reservation(l', min) == Reservation(leases[l'.uuid], min);
    hide Reservation;
    forall t, d | t in accounts
      ensures AmountOf(accounts[t].reservedAmounts, d) == Sum(leases[l'.uuid := l'], ReservedOf(t, d, min))
    {
      WeightUnmoved(leases, l', ReservedOf(t, d, min));
    }
  }

  lemma RewriteKeeps(st: Store, l': Lease)
    requires Indexed(st) && l'.uuid in st.leases && Rewrite(st.leases[l'.uuid], l') && SetLease(st, l').Ok?
    ensures Indexed(SetLease(st, l').value)
    ensures ReservedExactly(st) ==> ReservedExactly(SetLease(st, l').value)
    ensures SetLease(st, l').value.leases == st.leases[l'.uuid := l']
    ensures SetLease(st, l').value.params == st.params
    ensures SetLease(st, l').value.sequence == st.sequence
  {
    hide Exact, Reconcile, SkuExact, Sheltered, Counted, Reserves, SkuEntries, CreditIndexOf, Rewrite, LeasesFiled, AccountsFiled;
    ReconcileExact(st.domainIndex, st.leases, l');
    var st' := SetLease(st, l').value;
    RewriteKeepsSkus(st, l', st');
    RewriteKeepsCounts(st.leases, l', st.accounts);
    RewriteKeepsShelter(st.leases, l', st.accounts);
    SameSize(st.leases, l'.uuid, l');
    if ReservedExactly(st) {
      RewriteKeepsReserved(st.leases, l', st.accounts, st.params.minLeaseDuration);
    }
  }

  lemma RewriteKeepsShelter(leases: map<Uuid, Lease>, l': Lease, accounts: map<Address, CreditAccount>)
    requires l'.uuid in leases && Rewrite(leases[l'.uuid], l')
    requires Sheltered(leases, accounts) && LeasesFiled(leases)
    ensures Sheltered(leases[l'.uuid := l'], accounts) && LeasesFiled(leases[l'.uuid := l'])
  {
    hide Rates;
  }

  // ---------------------------------------------------------------- one step of a batch

  /** What a step of a batch keeps. */
  ghost predicate Kept(st: Store, u: Uuid, st': Store) {
    && Indexed(st') && (ReservedExactly(st) ==> ReservedExactly(st')) && st'.params == st.params
    && st'.sequence == st.sequence
    && (st'.leases == st.leases ||
        (u in st.leases && u in st'.leases && st'.leases == st.leases[u := st'.leases[u]]
         && Evolves(st.leases[u], st'.leases[u])))
  }

  lemma MoveIsKept(st: Store, bank: Bank, l': Lease, c: AccountChange, wrap: bool)
    requires Indexed(st) && Transition(st, l', c)
    ensures Move(st.(bank := bank), l', c, wrap).Ok?
    ensures Kept(st, l'.uuid, Move(st.(bank := bank), l', c, wrap).value)
    ensures Move(st.(bank := bank), l', c, wrap).value.leases == st.leases[l'.uuid := l']
  {
    var st1 := st.(bank := bank);
    BankIsFree(st, bank);
    assert Transition(st1, l', c) && Evolves(st.leases[l'.uuid], l') by {
      hide Indexed, Reservation;
    }
    hide Indexed, ReservedExactly, Move, Transition, Evolves;
    MoveKeeps(st1, l', c, wrap);
    assert st.leases[l'.uuid := l'][l'.uuid] == l';
  }

  /** The bank does not enter the invariants. */
  lemma BankIsFree(st: Store, bank: Bank)
    ensures Indexed(st.(bank := bank)) <==> Indexed(st)
    ensures ReservedExactly(st.(bank := bank)) <==> ReservedExactly(st)
  {
    hide Exact, SkuExact, Sheltered, Counted, Reserves, CreditIndexOf, LeasesFiled, AccountsFiled;
  }

  lemma SettledEvolves(l: Lease, at: Time)
    ensures Rewrite(l, l.(lastSettledAt := at)) && Evolves(l, l.(lastSettledAt := at))
  {
    hide Rates;
  }

  lemma SettledIsKept(st: Store, bank: Bank, l: Lease, at: Time)
    requires Indexed(st) && l.uuid in st.leases && st.leases[l.uuid] == l
    requires SetLease(st.(bank := bank), l.(lastSettledAt := at)).Ok?
    ensures Kept(st, l.uuid, SetLease(st.(bank := bank), l.(lastSettledAt := at)).value)
    ensures SetLease(st.(bank := bank), l.(lastSettledAt := at)).value.leases == st.leases[l.uuid := l.(lastSettledAt := at)]
  {
    var st1, l' := st.(bank := bank), l.(lastSettledAt := at);
    BankIsFree(st, bank);
    SettledEvolves(l, at);
    hide Evolves;
    hide Indexed, ReservedExactly, SetLease, Rewrite;
    RewriteKeeps(st1, l');
    assert st.leases[l.uuid := l'][l.uuid] == l';
  }

  lemma FinishIsKept(st: Store, env: Env, l: Lease, silent: bool, reason: string, wrap: bool)
    requires Indexed(st) && l.uuid in st.leases && st.leases[l.uuid] == l && l.state == Active
    requires Finish(st, env, l, silent, reason, wrap).Ok?
    ensures Kept(st, l.uuid, Finish(st, env, l, silent, reason, wrap).value.st)
    ensures Finish(st, env, l, silent, reason, wrap).value.st.leases == st.leases[l.uuid := ClosedLease(l, env.now, reason)]
  {
    hide Indexed, Settle, Move, Reservation, Kept;
    var s := Settle(st.bank, env.catalog, l, env.now, silent).value;
    MoveIsKept(st, s.bank, ClosedLease(l, env.now, reason), DropActive(Release(st, l)), wrap);
  }

  lemma SameIsKept(st: Store, u: Uuid)
    requires Indexed(st)
    ensures Kept(st, u, st)
  {
    hide Indexed, ReservedExactly;
  }

  lemma WithdrawIsKept(st: Store, env: Env, l: Lease)
    requires Indexed(st) && l.uuid in st.leases && st.leases[l.uuid] == l
    requires WithdrawOne(st, env, l).Ok?
    ensures Kept(st, l.uuid, WithdrawOne(st, env, l).value.st)
  {
    hide Indexed, Settle, SetLease, Kept, Finish, Exhausted;
    SameIsKept(st, l.uuid);
    if ShouldAutoClose(st.bank, l, env.now).value {
      FinishIsKept(st, env, l, true, CREDIT_EXHAUSTED, false);
    } else {
      var at := SettleTime(l, env.now);
      var s := Settle(st.bank, env.catalog, l, at, false).value;
      if s.accrued != NO_COINS {
        SettledIsKept(st, s.bank, l, at);
      }
    }
  }

  lemma SweepIsKept(st: Store, env: Env, l: Lease)
    requires Indexed(st) && l.uuid in st.leases && st.leases[l.uuid] == l
    requires SweepOne(st, env, l).Ok?
    ensures Kept(st, l.uuid, SweepOne(st, env, l).value.st)
  {
    hide Indexed, Settle, SetLease, Kept, Finish, Exhausted;
    SameIsKept(st, l.uuid);
    if ShouldAutoClose(st.bank, l, env.now).value {
      FinishIsKept(st, env, l, true, CREDIT_EXHAUSTED, false);
    } else {
      var at := SettleTime(l, env.now);
      if at > l.lastSettledAt {
        var s := Settle(st.bank, env.catalog, l, at, true).value;
        if s.transfer != NO_COINS {
          SettledIsKept(st, s.bank, l, at);
        }
      }
    }
  }

  /** Acknowledgement, rejection and expiry are never refused for a pending lease. */
  lemma PendingStepIsKept(st: Store, now: Time, l: Lease, reason: string)
    requires Indexed(st) && l.uuid in st.leases && st.leases[l.uuid] == l && l.state == Pending
    ensures AcknowledgeOne(st, now, l).Ok? && RejectOne(st, now, l, reason).Ok? && ExpireOne(st, now, l).Ok?
    ensures Kept(st, l.uuid, AcknowledgeOne(st, now, l).value.st)
    ensures Kept(st, l.uuid, RejectOne(st, now, l, reason).value.st)
    ensures Kept(st, l.uuid, ExpireOne(st, now, l).value.st)
    ensures AcknowledgeOne(st, now, l).value.st.leases == st.leases[l.uuid := Acknowledged(l, now)]
    ensures RejectOne(st, now, l, reason).value.st.leases == st.leases[l.uuid := RejectedLease(l, now, reason)]
    ensures ExpireOne(st, now, l).value.st.leases == st.leases[l.uuid := ExpiredLease(l, now)]
  {
    hide Indexed, Move, Reservation, Kept;
    assert st.(bank := st.bank) == st;
    MoveIsKept(st, st.bank, Acknowledged(l, now), Promote, true);
    MoveIsKept(st, st.bank, RejectedLease(l, now, reason), DropPending(Release(st, l)), true);
    MoveIsKept(st, st.bank, ExpiredLease(l, now), DropPending(Release(st, l)), false);
  }

  lemma OneIsKept(op: Op, env: Env, st: Store, u: Uuid)
    requires Indexed(st) && One(op, env, st, u).Ok?
    ensures Kept(st, u, One(op, env, st, u).value.st)
  {
    hide Indexed, Kept, Keyed, WithdrawOne, SweepOne, AcknowledgeOne, RejectOne, ExpireOne, Finish, Exhausted;
    SameIsKept(st, u);
    if Strict(op, env, st, u).Ok? {
      var l := st.leases[u];
      assert l.uuid == u by { FiledUnderKey(st, u); }
      match op
      case OpAcknowledge => AcknowledgeNeedsPending(st, env.now, l, ""); PendingStepIsKept(st, env.now, l, "");
      case OpReject(reason) => AcknowledgeNeedsPending(st, env.now, l, reason); PendingStepIsKept(st, env.now, l, reason);
      case OpExpire => AcknowledgeNeedsPending(st, env.now, l, ""); PendingStepIsKept(st, env.now, l, "");
      case OpClose(reason) =>
        var exhausted := ShouldAutoClose(st.bank, l, env.now).value;
        FinishIsKept(st, env, l, exhausted, if exhausted then CREDIT_EXHAUSTED else reason, true);
      case OpWithdraw => WithdrawIsKept(st, env, l);
      case OpSweep => SweepIsKept(st, env, l);
    }
  }

  lemma FiledUnderKey(st: Store, u: Uuid)
    requires Indexed(st) && u in st.leases
    ensures st.leases[u].uuid == u
  {
    hide Exact, SkuExact, Sheltered, Counted, CreditIndexOf, AccountsFiled;
  }

  lemma AcknowledgeNeedsPending(st: Store, now: Time, l: Lease, reason: string)
    ensures AcknowledgeOne(st, now, l).Ok? || RejectOne(st, now, l, reason).Ok? || ExpireOne(st, now, l).Ok? ==> l.state == Pending
  {
    hide Move;
  }
}
