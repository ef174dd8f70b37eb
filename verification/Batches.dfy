/** Batches as the handlers process them: leases fetched up front, a staged store, and the
    accounts of the tenants held in memory until the end.  The lemmas tie every intermediate
    state to the plain fold of `Ledger`. */
module Batches {
  import opened Coins
  import opened Types
  import opened Reservations
  import opened Accrual
  import opened Ledger
  import opened Invariants
  import opened Payments
  import Reachable
  import opened DomainIndex

  // ---------------------------------------------------------------- folds

  lemma BatchNone(op: Op, env: Env, st: Store)
    ensures Batch(op, env, st, []) == Ok(Out(st, []))
  {
  }

  lemma BatchNext(op: Op, env: Env, st: Store, us: seq<Uuid>, i: nat)
    requires i < |us| && Batch(op, env, st, us[..i]).Ok?
    ensures var before := Batch(op, env, st, us[..i]).value;
            var last := One(op, env, before.st, us[i]);
            Batch(op, env, st, us[..i + 1]) ==
            if last.Ok? then Ok(Out(last.value.st, before.receipts + last.value.receipts)) else Err(last.error)
  {
    hide One;
    assert us[..i + 1][..i] == us[..i];
  }

  lemma {:induction false} BatchFails(op: Op, env: Env, st: Store, us: seq<Uuid>, i: nat)
    requires i <= |us| && Batch(op, env, st, us[..i]).Err?
    ensures Batch(op, env, st, us) == Batch(op, env, st, us[..i])
    decreases |us|
  {
    hide One;
    if i == |us| {
      assert us[..i] == us;
    } else {
      var n := |us| - 1;
      assert us[..n][..i] == us[..i];
      BatchFails(op, env, st, us[..n], i);
    }
  }

  ghost predicate Refines<T>(r: Result<T>, spec: Result<Out>, before: Store, after: Store) {
    if spec.Ok? then r.Ok? && after == spec.value.st
    else r.Err? && r.error == spec.error && after == before
  }

  /** The store stays consistent throughout a batch. */
  lemma ConsistentSoFar(op: Op, env: Env, st: Store, us: seq<Uuid>, i: nat)
    requires Consistent(st) && i <= |us| && Batch(op, env, st, us[..i]).Ok?
    ensures Consistent(Batch(op, env, st, us[..i]).value.st)
  {
    hide Indexed, ReservedExactly, Batch, Reachable.OnlyEvolved;
    Reachable.BatchIsKept(op, env, st, us[..i]);
  }

  // ---------------------------------------------------------------- accounts in memory

  /** The store that a staged keeper and the accounts held in memory stand for. */
  function Overlay(st: Store, cache: map<Address, CreditAccount>): Store {
    st.(accounts := st.accounts + cache)
  }

  lemma OverlayShape(st: Store, cache: map<Address, CreditAccount>)
    ensures Overlay(st, cache).leases == st.leases && Overlay(st, cache).params == st.params && Overlay(st, cache).bank == st.bank
    ensures st.(bank := st.bank) == st
  {
  }

  lemma OverlayBank(st: Store, cache: map<Address, CreditAccount>, bank: Bank)
    ensures Overlay(st, cache).(bank := bank) == Overlay(st.(bank := bank), cache)
  {
  }

  /** Every account held in memory has a stored version, filed and indexed. */
  ghost predicate Cached(st: Store, cache: map<Address, CreditAccount>) {
    forall t :: t in cache ==>
      t in st.accounts && cache[t].tenant == t && Credit(t) in st.creditIndex && st.creditIndex[Credit(t)] == t
  }

  lemma CachedElsewhere(st: Store, st': Store, cache: map<Address, CreditAccount>)
    requires Cached(st, cache) && st'.accounts == st.accounts && st'.creditIndex == st.creditIndex
    ensures Cached(st', cache)
  {
  }

  lemma CachedNext(st: Store, st': Store, cache: map<Address, CreditAccount>, t: Address, c: AccountChange)
    requires Cached(st, cache) && t in cache && st'.accounts == st.accounts && st'.creditIndex == st.creditIndex
    ensures Cached(st', cache[t := Changed(cache[t], c)])
  {
    hide Changed;
  }

  /** Writing a lease and keeping its account in memory is the one-lease step of the ledger. */
  lemma StagedMove(st: Store, cache: map<Address, CreditAccount>, l: Lease, c: AccountChange)
    requires Cached(st, cache) && l.tenant in cache
    ensures var r := Ledger.SetLease(st, l);
            Move(Overlay(st, cache), l, c, true) ==
            if r.Err? then Err(InvalidLease)
            else Ok(Overlay(r.value, cache[l.tenant := Changed(cache[l.tenant], c)]))
  {
    hide Reconcile, Changed;
    var r := Ledger.SetLease(st, l);
    if r.Ok? {
      var ca := Changed(cache[l.tenant], c);
      assert (r.value.accounts + cache)[l.tenant := ca] == r.value.accounts + cache[l.tenant := ca];
      assert r.value.creditIndex[Credit(l.tenant) := l.tenant] == r.value.creditIndex;
    }
  }

  // ---------------------------------------------------------------- leases fetched up front

  /** The leases of a batch and the accounts of their tenants, as fetched up front. */
  ghost predicate Fetched(st: Store, us: seq<Uuid>, leases: seq<Lease>, cache: map<Address, CreditAccount>, order: seq<Address>) {
    && |leases| == |us|
    && (forall i :: 0 <= i < |us| ==> us[i] in st.leases && leases[i] == st.leases[us[i]] && leases[i].tenant in cache)
    && (forall t :: t in cache ==> t in st.accounts && cache[t] == st.accounts[t])
    && (forall t :: t in order <==> t in cache)
  }

  lemma FetchedNone(st: Store)
    ensures Fetched(st, [], [], map[], [])
  {
  }

  /** One more lease is fetched; its tenant's account only if it is not in memory yet. */
  lemma FetchedNext(st: Store, us: seq<Uuid>, i: nat, leases: seq<Lease>, cache: map<Address, CreditAccount>, order: seq<Address>)
    requires i < |us| && Fetched(st, us[..i], leases, cache, order) && us[i] in st.leases && st.leases[us[i]].tenant in st.accounts
    ensures var t := st.leases[us[i]].tenant;
            && (t in cache ==> Fetched(st, us[..i + 1], leases + [st.leases[us[i]]], cache, order))
            && (t !in cache ==> Fetched(st, us[..i + 1], leases + [st.leases[us[i]]], cache[t := st.accounts[t]], order + [t]))
  {
    assert us[..i + 1] == us[..i] + [us[i]];
  }

  lemma FetchedHas(st: Store, us: seq<Uuid>, leases: seq<Lease>, cache: map<Address, CreditAccount>, order: seq<Address>, t: Address)
    requires Fetched(st, us, leases, cache, order) && t in cache
    ensures t in st.accounts
  {
  }

  lemma FetchedShape(st: Store, us: seq<Uuid>, leases: seq<Lease>, cache: map<Address, CreditAccount>, order: seq<Address>)
    requires Fetched(st, us, leases, cache, order)
    ensures |leases| == |us| && forall t :: t in order <==> t in cache
  {
  }

  lemma FetchedIsCached(st: Store, us: seq<Uuid>, leases: seq<Lease>, cache: map<Address, CreditAccount>, order: seq<Address>)
    requires Keyed(st) && Fetched(st, us, leases, cache, order)
    ensures Cached(st, cache) && Overlay(st, cache) == st
  {
    assert st.accounts + cache == st.accounts;
    assert forall t :: t in st.accounts ==> Credit(t) in CreditIndexOf(st.accounts) && CreditIndexOf(st.accounts)[Credit(t)] == t;
    hide CreditIndexOf, LeasesFiled;
  }

  ghost predicate AllInState(leases: seq<Lease>, state: LeaseState) {
    forall i :: 0 <= i < |leases| ==> leases[i].state == state
  }

  // ---------------------------------------------------------------- a batch in progress

  ghost predicate ToCome(stored: map<Uuid, Lease>, us: seq<Uuid>, i: nat, leases: seq<Lease>, tenants: set<Address>)
    requires i <= |us| == |leases|
  {
    forall j :: i <= j < |us| ==> us[j] in stored && stored[us[j]] == leases[j] && leases[j].uuid == us[j] && leases[j].tenant in tenants
  }

  lemma ToComeNext(stored: map<Uuid, Lease>, us: seq<Uuid>, i: nat, leases: seq<Lease>, tenants: set<Address>, l: Lease)
    requires i < |us| == |leases| && Distinct(us) && l.uuid == us[i] && ToCome(stored, us, i, leases, tenants)
    ensures ToCome(stored[l.uuid := l], us, i + 1, leases, tenants)
  {
  }

  lemma NextTenant(stored: map<Uuid, Lease>, us: seq<Uuid>, i: nat, leases: seq<Lease>, tenants: set<Address>)
    requires i < |us| == |leases| && ToCome(stored, us, i, leases, tenants)
    ensures leases[i].tenant in tenants
  {
  }

  /** Where a batch stands after `i` leases: the staged store and the accounts in memory
      together are the fold so far, and the leases still to come are as fetched. */
  ghost predicate Staging(op: Op, env: Env, st0: Store, us: seq<Uuid>, i: nat, st: Store,
                          cache: map<Address, CreditAccount>, leases: seq<Lease>, receipts: seq<Receipt>)
    requires i <= |us| == |leases|
  {
    && Batch(op, env, st0, us[..i]) == Ok(Out(Overlay(st, cache), receipts))
    && Cached(st, cache)
    && st.params == st0.params
    && ToCome(st.leases, us, i, leases, cache.Keys)
  }

  lemma StagingStart(op: Op, env: Env, st: Store, us: seq<Uuid>, cache: map<Address, CreditAccount>, leases: seq<Lease>, order: seq<Address>)
    requires Keyed(st) && Fetched(st, us, leases, cache, order)
    ensures Staging(op, env, st, us, 0, st, cache, leases, [])
  {
    assert us[..0] == [];
    BatchNone(op, env, st);
    FetchedIsCached(st, us, leases, cache, order);
    hide Batch, Cached, CreditIndexOf, AccountsFiled;
    assert ToCome(st.leases, us, 0, leases, cache.Keys);
  }

  /** The lease whose turn it is. */
  lemma StagingNow(op: Op, env: Env, st0: Store, us: seq<Uuid>, i: nat, st: Store, cache: map<Address, CreditAccount>, leases: seq<Lease>, receipts: seq<Receipt>)
    requires i < |us| == |leases| && Staging(op, env, st0, us, i, st, cache, leases, receipts)
    ensures us[i] in st.leases && st.leases[us[i]] == leases[i] && leases[i].uuid == us[i] && leases[i].tenant in cache
    ensures st.params == st0.params
  {
    hide Batch, Cached;
  }

  lemma WriteTouchesOne(st: Store, l: Lease)
    ensures var r := Ledger.SetLease(st, l);
            r.Ok? ==> r.value == st.(leases := st.leases[l.uuid := l], skuIndex := r.value.skuIndex, domainIndex := r.value.domainIndex)
  {
    hide Reconcile;
  }

  /** A step of the ledger that is a lease write followed by an account change. */
  ghost predicate IsMove(step: Result<Out>, st: Store, l: Lease, c: AccountChange, receipts: seq<Receipt>) {
    var moved := Move(st, l, c, true);
    step == if moved.Ok? then Ok(Out(moved.value, receipts)) else Err(moved.error)
  }

  lemma StagingStep(op: Op, env: Env, st0: Store, us: seq<Uuid>, i: nat, st: Store, cache: map<Address, CreditAccount>,
                    leases: seq<Lease>, receipts: seq<Receipt>, bank: Bank, l: Lease, c: AccountChange, paid: seq<Receipt>)
    requires i < |us| == |leases| && Distinct(us) && Staging(op, env, st0, us, i, st, cache, leases, receipts)
    requires l.uuid == us[i] && l.tenant == leases[i].tenant
    requires IsMove(One(op, env, Overlay(st, cache), us[i]), Overlay(st.(bank := bank), cache), l, c, paid)
    ensures var r := Ledger.SetLease(st.(bank := bank), l);
            && (r.Err? ==> Batch(op, env, st0, us) == Err(InvalidLease))
            && (r.Ok? ==> Staging(op, env, st0, us, i + 1, r.value, cache[l.tenant := Changed(cache[l.tenant], c)], leases, receipts + paid))
  {
    hide One, Batch, Move, Ledger.SetLease, ToCome, Cached;
    BatchNext(op, env, st0, us, i);
    var mid := st.(bank := bank);
    assert Cached(mid, cache) by { CachedElsewhere(st, mid, cache); }
    assert l.tenant in cache by { NextTenant(st.leases, us, i, leases, cache.Keys); }
    StagedMove(mid, cache, l, c);
    var r := Ledger.SetLease(mid, l);
    if r.Err? {
      BatchFails(op, env, st0, us, i + 1);
    } else {
      WriteTouchesOne(mid, l);
      ToComeNext(st.leases, us, i, leases, cache.Keys, l);
      var cache' := cache[l.tenant := Changed(cache[l.tenant], c)];
      assert cache'.Keys == cache.Keys;
      CachedNext(mid, r.value, cache, l.tenant, c);
    }
  }

  /** A step that the ledger refuses ends the batch. */
  lemma StagingRefused(op: Op, env: Env, st0: Store, us: seq<Uuid>, i: nat, st: Store, cache: map<Address, CreditAccount>, leases: seq<Lease>, receipts: seq<Receipt>)
    requires i < |us| == |leases| && Staging(op, env, st0, us, i, st, cache, leases, receipts)
    requires One(op, env, Overlay(st, cache), us[i]).Err?
    ensures Batch(op, env, st0, us) == Err(One(op, env, Overlay(st, cache), us[i]).error)
  {
    hide One, Batch, Overlay, Cached, ToCome;
    BatchNext(op, env, st0, us, i);
    BatchFails(op, env, st0, us, i + 1);
  }

  lemma StagingEnd(op: Op, env: Env, st0: Store, us: seq<Uuid>, st: Store, cache: map<Address, CreditAccount>, leases: seq<Lease>, receipts: seq<Receipt>)
    requires |us| == |leases| && Staging(op, env, st0, us, |us|, st, cache, leases, receipts)
    ensures Batch(op, env, st0, us) == Ok(Out(Overlay(st, cache), receipts)) && Cached(st, cache)
  {
    hide Batch, Cached;
    assert us[..|us|] == us;
  }

  /** In a batch over a consistent store no account change is reported, although the accounts are
      held in memory. */
  lemma StagingConsistent(op: Op, env: Env, st0: Store, us: seq<Uuid>, i: nat, st: Store, cache: map<Address, CreditAccount>, leases: seq<Lease>, receipts: seq<Receipt>)
    requires i < |us| == |leases| && Staging(op, env, st0, us, i, st, cache, leases, receipts)
    ensures leases[i].tenant in cache
    ensures Consistent(st0) ==>
              var ca, released := cache[leases[i].tenant], Reservation(leases[i], st0.params.minLeaseDuration);
              && (leases[i].state == Pending ==> !Inconsistent(ca, Promote) && !Inconsistent(ca, DropPending(released)))
              && (leases[i].state == Active ==> !Inconsistent(ca, DropActive(released)))
  {
    hide Batch, Consistent, Inconsistent, Reservation, Cached, ToCome;
    StagingNow(op, env, st0, us, i, st, cache, leases, receipts);
    if Consistent(st0) {
      ConsistentSoFar(op, env, st0, us, i);
      if Live(leases[i]) {
        NeverInconsistent(Overlay(st, cache), us[i]);
      }
    }
  }

  lemma BatchIsDistinct(us: seq<Uuid>)
    requires ValidBatch(us)
    ensures Distinct(us)
  {
  }

  lemma BatchIsNotEmpty(us: seq<Uuid>)
    requires ValidBatch(us)
    ensures us != []
  {
  }

  // ---------------------------------------------------------------- writing the accounts back

  /** The accounts in memory that have been written back. */
  function Part(cache: map<Address, CreditAccount>, order: seq<Address>): map<Address, CreditAccount> {
    map t | t in order && t in cache :: cache[t]
  }

  lemma PersistNone(st: Store, cache: map<Address, CreditAccount>)
    ensures Overlay(st, Part(cache, [])) == st
  {
    assert st.accounts + Part(cache, []) == st.accounts;
  }

  lemma PersistNext(st: Store, cache: map<Address, CreditAccount>, order: seq<Address>, i: nat)
    requires Cached(st, cache) && i < |order| && order[i] in cache
    ensures Overlay(st, Part(cache, order[..i + 1])) == SetAccount(Overlay(st, Part(cache, order[..i])), cache[order[i]])
  {
    var t := order[i];
    assert order[..i + 1] == order[..i] + [t];
    assert st.creditIndex[Credit(t) := t] == st.creditIndex;
    assert st.accounts + Part(cache, order[..i + 1]) == (st.accounts + Part(cache, order[..i]))[t := cache[t]];
  }

  lemma PersistAll(cache: map<Address, CreditAccount>, order: seq<Address>)
    requires forall t :: t in order <==> t in cache
    ensures Part(cache, order) == cache
  {
  }

  // ---------------------------------------------------------------- acknowledging and rejecting

  lemma PendingNone(st: Store)
    ensures PendingProvider(st, []) == Ok("")
  {
  }

  lemma PendingNext(st: Store, us: seq<Uuid>, i: nat)
    requires i < |us| && PendingProvider(st, us[..i]).Ok?
    ensures var provider := PendingProvider(st, us[..i]).value;
            PendingProvider(st, us[..i + 1]) ==
            if us[i] !in st.leases then Err(LeaseNotFound)
            else
              var l := st.leases[us[i]];
              if l.state != Pending then Err(LeaseNotPending)
              else if provider != "" && l.providerUuid != provider then Err(MixedProviders)
              else if l.tenant !in st.accounts then Err(CreditAccountNotFound)
              else Ok(if provider == "" then l.providerUuid else provider)
  {
    assert us[..i + 1][..i] == us[..i];
  }

  lemma {:induction false} PendingFails(st: Store, us: seq<Uuid>, i: nat)
    requires i <= |us| && PendingProvider(st, us[..i]).Err?
    ensures PendingProvider(st, us) == PendingProvider(st, us[..i])
    decreases |us|
  {
    if i == |us| {
      assert us[..i] == us;
    } else {
      var n := |us| - 1;
      assert us[..n][..i] == us[..i];
      PendingFails(st, us[..n], i);
    }
  }

  lemma AcknowledgeIsMove(env: Env, st: Store, u: Uuid)
    requires u in st.leases && st.leases[u].state == Pending
    ensures IsMove(One(OpAcknowledge, env, st, u), st, Acknowledged(st.leases[u], env.now), Promote, [])
  {
    hide Move;
  }

  lemma RejectIsMove(env: Env, st: Store, u: Uuid, reason: string)
    requires u in st.leases && st.leases[u].state == Pending
    ensures IsMove(One(OpReject(reason), env, st, u), st, RejectedLease(st.leases[u], env.now, reason), DropPending(Release(st, st.leases[u])), [])
  {
    hide Move;
  }

  lemma RejectStep(env: Env, st0: Store, us: seq<Uuid>, i: nat, st: Store, cache: map<Address, CreditAccount>, leases: seq<Lease>, reason: string)
    requires i < |us| == |leases| && Distinct(us) && Staging(OpReject(reason), env, st0, us, i, st, cache, leases, [])
    requires leases[i].state == Pending
    ensures leases[i].tenant in cache
    ensures var l := leases[i];
            var r := Ledger.SetLease(st, RejectedLease(l, env.now, reason));
            var c := DropPending(Reservation(l, st0.params.minLeaseDuration));
            && (r.Err? ==> Batch(OpReject(reason), env, st0, us) == Err(InvalidLease))
            && (r.Ok? ==> Staging(OpReject(reason), env, st0, us, i + 1, r.value, cache[l.tenant := Changed(cache[l.tenant], c)], leases, []))
  {
    hide Batch, Staging, Overlay, One, IsMove, Ledger.SetLease, Reservation, Changed;
    var op, l, none: seq<Receipt> := OpReject(reason), leases[i], [];
    assert none + none == none;
    StagingNow(op, env, st0, us, i, st, cache, leases, []);
    OverlayShape(st, cache);
    RejectIsMove(env, Overlay(st, cache), us[i], reason);
    StagingStep(op, env, st0, us, i, st, cache, leases, [], st.bank, RejectedLease(l, env.now, reason),
                DropPending(Reservation(l, st0.params.minLeaseDuration)), []);
  }

  // ---------------------------------------------------------------- cancelling

  function Alone(t: Address, ca: CreditAccount): map<Address, CreditAccount> { map[t := ca] }

  lemma AloneUpdate(t: Address, ca: CreditAccount, ca': CreditAccount)
    ensures Alone(t, ca).Keys == {t} && Alone(t, ca)[t] == ca && Alone(t, ca)[t := ca'] == Alone(t, ca')
  {
  }

  /** The fetched leases are the stored ones and belong to the tenant. */
  ghost predicate OwnedBy(st: Store, tenant: Address, us: seq<Uuid>, leases: seq<Lease>)
    requires |leases| == |us|
  {
    forall i :: 0 <= i < |us| ==> us[i] in st.leases && leases[i] == st.leases[us[i]] && leases[i].tenant == tenant
  }

  lemma FetchedAlone(st: Store, us: seq<Uuid>, leases: seq<Lease>, tenant: Address)
    requires |leases| == |us| && tenant in st.accounts && OwnedBy(st, tenant, us, leases)
    ensures Fetched(st, us, leases, Alone(tenant, st.accounts[tenant]), [tenant])
  {
  }

  lemma PersistOne(st: Store, t: Address, ca: CreditAccount)
    requires Cached(st, Alone(t, ca))
    ensures Overlay(st, Alone(t, ca)) == SetAccount(st, ca)
  {
    var cache := Alone(t, ca);
    assert cache[t].tenant == t;
    assert st.creditIndex[Credit(t) := t] == st.creditIndex;
    assert st.accounts + cache == st.accounts[t := ca];
  }

  lemma CancelStep(env: Env, st0: Store, us: seq<Uuid>, i: nat, st: Store, tenant: Address, ca: CreditAccount, leases: seq<Lease>)
    requires i < |us| == |leases| && Distinct(us) && leases[i].state == Pending
    requires Staging(OpReject(CANCELLED_BY_TENANT), env, st0, us, i, st, Alone(tenant, ca), leases, [])
    ensures var op, l := OpReject(CANCELLED_BY_TENANT), leases[i];
            var r := Ledger.SetLease(st, RejectedLease(l, env.now, CANCELLED_BY_TENANT));
            var c := DropPending(Reservation(l, st0.params.minLeaseDuration));
            && (r.Err? ==> Batch(op, env, st0, us) == Err(InvalidLease))
            && (r.Ok? ==> Staging(op, env, st0, us, i + 1, r.value, Alone(tenant, Changed(ca, c)), leases, []))
  {
    hide Batch, Staging, Ledger.SetLease, Reservation, Changed, Alone, RejectedLease;
    RejectStep(env, st0, us, i, st, Alone(tenant, ca), leases, CANCELLED_BY_TENANT);
    AloneUpdate(tenant, ca, Changed(ca, DropPending(Reservation(leases[i], st0.params.minLeaseDuration))));
  }

  lemma CancelNone(st: Store, tenant: Address)
    ensures CheckCancel(st, tenant, []) == Ok(())
  {
  }

  lemma CancelNext(st: Store, tenant: Address, us: seq<Uuid>, i: nat)
    requires i < |us| && CheckCancel(st, tenant, us[..i]).Ok?
    ensures CheckCancel(st, tenant, us[..i + 1]) ==
            if us[i] !in st.leases then Err(LeaseNotFound)
            else if st.leases[us[i]].tenant != tenant then Err(Unauthorized)
            else if st.leases[us[i]].state != Pending then Err(LeaseNotPending)
            else Ok(())
  {
    assert us[..i + 1][..i] == us[..i];
  }

  lemma {:induction false} CancelFails(st: Store, tenant: Address, us: seq<Uuid>, i: nat)
    requires i <= |us| && CheckCancel(st, tenant, us[..i]).Err?
    ensures CheckCancel(st, tenant, us) == CheckCancel(st, tenant, us[..i])
    decreases |us|
  {
    if i == |us| {
      assert us[..i] == us;
    } else {
      var n := |us| - 1;
      assert us[..n][..i] == us[..i];
      CancelFails(st, tenant, us[..n], i);
    }
  }

  // ---------------------------------------------------------------- closing

  /** Remembered provider addresses agree with the catalog. */
  ghost predicate KnownProviders(env: Env, cache: map<string, Address>) {
    forall p :: p in cache ==> p in env.catalog.providers && cache[p] == env.catalog.providers[p].address
  }

  lemma CloseRoleNone(env: Env, st: Store, sender: Address)
    ensures CloseRole(env, st, sender, []) == Ok(None)
  {
  }

  lemma CloseRoleNext(env: Env, st: Store, sender: Address, us: seq<Uuid>, i: nat)
    requires i < |us| && CloseRole(env, st, sender, us[..i]).Ok?
    ensures var role := CloseRole(env, st, sender, us[..i]).value;
            CloseRole(env, st, sender, us[..i + 1]) ==
            if us[i] !in st.leases then Err(LeaseNotFound)
            else
              var l := st.leases[us[i]];
              var mine := RoleFor(env, sender, l);
              if l.state != Active then Err(LeaseNotActive)
              else if mine.None? then Err(Unauthorized)
              else if role.Some? && role != mine then Err(Unauthorized)
              else if l.tenant !in st.accounts then Err(CreditAccountNotFound)
              else Ok(mine)
  {
    hide RoleFor;
    assert us[..i + 1][..i] == us[..i];
  }

  lemma {:induction false} CloseRoleFails(env: Env, st: Store, sender: Address, us: seq<Uuid>, i: nat)
    requires i <= |us| && CloseRole(env, st, sender, us[..i]).Err?
    ensures CloseRole(env, st, sender, us) == CloseRole(env, st, sender, us[..i])
    decreases |us|
  {
    hide RoleFor;
    if i == |us| {
      assert us[..i] == us;
    } else {
      var n := |us| - 1;
      assert us[..n][..i] == us[..i];
      CloseRoleFails(env, st, sender, us[..n], i);
    }
  }

  /** The authority closes every lease as the authority. */
  lemma {:induction false} OneAuthority(env: Env, st: Store, sender: Address, us: seq<Uuid>, l: Lease)
    requires sender == env.authority
    ensures RoleFor(env, sender, l) == Some(AsAuthority)
    ensures var role := CloseRole(env, st, sender, us); role.Ok? ==> role.value == None || role.value == Some(AsAuthority)
  {
  }

  /** What closing one lease settles and writes. */
  function ClosePlan(bank: Bank, env: Env, l: Lease, reason: string): Result<(Settlement, Lease)> {
    var exhausted :- ShouldAutoClose(bank, l, env.now);
    var s :- Settle(bank, env.catalog, l, env.now, exhausted);
    Ok((s, ClosedLease(l, env.now, if exhausted then CREDIT_EXHAUSTED else reason)))
  }

  lemma CloseOneIsMove(env: Env, st: Store, l: Lease, reason: string)
    requires l.state == Active
    ensures var plan := ClosePlan(st.bank, env, l, reason);
            if plan.Err? then CloseOne(st, env, l, reason) == Err(plan.error)
            else IsMove(CloseOne(st, env, l, reason), st.(bank := plan.value.0.bank), plan.value.1, DropActive(Release(st, l)),
                        [MakeReceipt(env.catalog, l, env.now, plan.value.0, true)])
  {
    hide Move, Settle, ShouldAutoClose, MakeReceipt, Release;
  }

  lemma CloseIsMove(env: Env, st: Store, u: Uuid, reason: string)
    requires u in st.leases && st.leases[u].state == Active
    ensures var l := st.leases[u];
            var plan := ClosePlan(st.bank, env, l, reason);
            if plan.Err? then One(OpClose(reason), env, st, u) == Err(plan.error)
            else IsMove(One(OpClose(reason), env, st, u), st.(bank := plan.value.0.bank), plan.value.1, DropActive(Release(st, l)),
                        [MakeReceipt(env.catalog, l, env.now, plan.value.0, true)])
  {
    CloseOneIsMove(env, st, st.leases[u], reason);
    hide CloseOne, IsMove, ClosePlan;
  }

  lemma PlanKeepsIdentity(bank: Bank, env: Env, l: Lease, reason: string)
    ensures var plan := ClosePlan(bank, env, l, reason);
            plan.Ok? ==> plan.value.1.uuid == l.uuid && plan.value.1.tenant == l.tenant && plan.value.1.items == l.items
                         && plan.value.1.minLeaseDurationAtCreation == l.minLeaseDurationAtCreation
  {
    hide Settle, ShouldAutoClose;
  }

  lemma CloseStep(env: Env, st0: Store, us: seq<Uuid>, i: nat, st: Store, cache: map<Address, CreditAccount>, leases: seq<Lease>, receipts: seq<Receipt>, reason: string)
    requires i < |us| == |leases| && Distinct(us) && Staging(OpClose(reason), env, st0, us, i, st, cache, leases, receipts)
    requires leases[i].state == Active
    ensures leases[i].tenant in cache
    ensures var op, l := OpClose(reason), leases[i];
            var plan := ClosePlan(st.bank, env, l, reason);
            if plan.Err? then Batch(op, env, st0, us) == Err(plan.error)
            else
              var r := Ledger.SetLease(st.(bank := plan.value.0.bank), plan.value.1);
              var c := DropActive(Reservation(l, st0.params.minLeaseDuration));
              var receipt := MakeReceipt(env.catalog, l, env.now, plan.value.0, true);
              && plan.value.1.tenant == l.tenant && plan.value.1.items == l.items
              && plan.value.1.minLeaseDurationAtCreation == l.minLeaseDurationAtCreation
              && (r.Err? ==> Batch(op, env, st0, us) == Err(InvalidLease))
              && (r.Ok? ==> Staging(op, env, st0, us, i + 1, r.value, cache[l.tenant := Changed(cache[l.tenant], c)], leases, receipts + [receipt]))
  {
    hide Batch, Staging, Overlay, One, IsMove, Ledger.SetLease, Reservation, Changed, ClosePlan, MakeReceipt;
    var op, l := OpClose(reason), leases[i];
    StagingNow(op, env, st0, us, i, st, cache, leases, receipts);
    OverlayShape(st, cache);
    CloseIsMove(env, Overlay(st, cache), us[i], reason);
    var plan := ClosePlan(st.bank, env, l, reason);
    PlanKeepsIdentity(st.bank, env, l, reason);
    if plan.Err? {
      StagingRefused(op, env, st0, us, i, st, cache, leases, receipts);
    } else {
      OverlayBank(st, cache, plan.value.0.bank);
      StagingStep(op, env, st0, us, i, st, cache, leases, receipts, plan.value.0.bank, plan.value.1,
                  DropActive(Reservation(l, st0.params.minLeaseDuration)), [MakeReceipt(env.catalog, l, env.now, plan.value.0, true)]);
    }
  }

  lemma TotalWith(rs: seq<Receipt>, catalog: Catalog, l: Lease, at: Time, s: Settlement)
    ensures TotalOf(rs + [MakeReceipt(catalog, l, at, s, true)]) == Add(TotalOf(rs), s.transfer)
    ensures TotalOf(rs + [MakeReceipt(catalog, l, at, s, false)]) == Add(TotalOf(rs), s.transfer)
  {
    hide TotalOf;
    TotalNext(rs, MakeReceipt(catalog, l, at, s, true));
    TotalNext(rs, MakeReceipt(catalog, l, at, s, false));
  }

  // ---------------------------------------------------------------- withdrawing

  /** The fetched leases are the stored ones. */
  ghost predicate Stored(st: Store, us: seq<Uuid>, leases: seq<Lease>)
    requires |leases| == |us|
  {
    forall i :: 0 <= i < |us| ==> us[i] in st.leases && leases[i] == st.leases[us[i]]
  }

  /** The provider record found for a batch that is not empty. */
  predicate PaysTo(env: Env, us: seq<Uuid>, provider: string, p: Option<Provider>) {
    us != [] ==> provider in env.catalog.providers && p == Some(env.catalog.providers[provider])
  }

  function PayoutOf(env: Env, provider: Result<string>): Option<Address> {
    if provider.Ok? && provider.value in env.catalog.providers then Some(env.catalog.providers[provider.value].payoutAddress) else None
  }

  /** At most one receipt, and what it paid. */
  predicate Pays(receipts: seq<Receipt>, paid: Option<Coins>) {
    if paid.None? then receipts == [] else |receipts| == 1 && receipts[0].transfer == paid.value
  }

  lemma TotalPays(rs: seq<Receipt>, more: seq<Receipt>, paid: Option<Coins>)
    requires Pays(more, paid)
    ensures TotalOf(rs + more) == if paid.Some? then Add(TotalOf(rs), paid.value) else TotalOf(rs)
    ensures |more| == if paid.Some? then 1 else 0
  {
    hide TotalOf;
    if paid.Some? {
      assert more == [more[0]];
      TotalNext(rs, more[0]);
    } else {
      assert rs + more == rs;
    }
  }

  lemma ReceiptTransfer(catalog: Catalog, l: Lease, at: Time, s: Settlement)
    ensures MakeReceipt(catalog, l, at, s, true).transfer == s.transfer
    ensures MakeReceipt(catalog, l, at, s, false).transfer == s.transfer
  {
  }

  lemma NotActiveStaysOpen(bank: Bank, l: Lease, now: Time)
    ensures l.state != Active ==> ShouldAutoClose(bank, l, now) == Ok(false)
  {
  }

  lemma NoAccrualNoPayment(bank: Bank, catalog: Catalog, l: Lease, at: Time, silent: bool)
    ensures var s := Settle(bank, catalog, l, at, silent);
            s.Ok? && s.value.accrued == NO_COINS ==> s.value.bank == bank
  {
    hide Accrued, Overflows, Available;
    MeetNothing(Available(bank, l));
  }

  lemma SweepIsLenient(env: Env, st: Store, u: Uuid)
    ensures One(OpSweep, env, st, u) ==
            if u in st.leases && SweepOne(st, env, st.leases[u]).Ok? then SweepOne(st, env, st.leases[u]) else Ok(Out(st, []))
  {
    hide SweepOne;
  }

  lemma WithdrawProviderNone(env: Env, st: Store, sender: Address)
    ensures WithdrawProvider(env, st, sender, []) == Ok("")
  {
  }

  lemma WithdrawProviderNext(env: Env, st: Store, sender: Address, us: seq<Uuid>, i: nat)
    requires i < |us| && WithdrawProvider(env, st, sender, us[..i]).Ok?
    ensures var provider := WithdrawProvider(env, st, sender, us[..i]).value;
            var r := WithdrawProvider(env, st, sender, us[..i + 1]);
            if us[i] !in st.leases then r == Err(LeaseNotFound)
            else
              var mine := st.leases[us[i]].providerUuid;
              if i == 0 then
                var a := AuthorizeProvider(env, sender, mine);
                r == if a.Ok? then Ok(mine) else Err(a.error)
              else r == if mine != provider then Err(InvalidLease) else Ok(provider)
  {
    assert us[..i + 1][..i] == us[..i];
  }

  lemma {:induction false} WithdrawProviderFails(env: Env, st: Store, sender: Address, us: seq<Uuid>, i: nat)
    requires i <= |us| && WithdrawProvider(env, st, sender, us[..i]).Err?
    ensures WithdrawProvider(env, st, sender, us) == WithdrawProvider(env, st, sender, us[..i])
    decreases |us|
  {
    if i == |us| {
      assert us[..i] == us;
    } else {
      var n := |us| - 1;
      assert us[..n][..i] == us[..i];
      WithdrawProviderFails(env, st, sender, us[..n], i);
    }
  }

  /** The lease is the stored one. */
  predicate IsStored(leases: map<Uuid, Lease>, lease: Lease) {
    lease.uuid in leases && leases[lease.uuid] == lease
  }

  /** The lease whose turn it is is the stored one. */
  lemma TurnIsStored(stored: map<Uuid, Lease>, us: seq<Uuid>, i: nat, leases: seq<Lease>, tenants: set<Address>)
    requires i < |us| == |leases| && ToCome(stored, us, i, leases, tenants)
    ensures IsStored(stored, leases[i])
  {
  }

  lemma StoredIsToCome(st: Store, us: seq<Uuid>, leases: seq<Lease>)
    requires |leases| == |us| && LeasesFiled(st.leases) && Stored(st, us, leases)
    ensures ToCome(st.leases, us, 0, leases, set l | l in leases :: l.tenant)
  {
  }

  lemma FinishTouchesOne(st: Store, env: Env, l: Lease, silent: bool, reason: string, wrap: bool)
    ensures var r := Finish(st, env, l, silent, reason, wrap);
            r.Ok? ==> r.value.st.leases == st.leases[l.uuid := ClosedLease(l, env.now, reason)]
  {
    hide Settle, Ledger.SetLease, Release, Changed;
    var s := Settle(st.bank, env.catalog, l, env.now, silent);
    if s.Ok? {
      WriteTouchesOne(st.(bank := s.value.bank), ClosedLease(l, env.now, reason));
    }
  }

  /** A withdrawal writes at most its own lease. */
  lemma WithdrawTouchesOne(st: Store, env: Env, l: Lease) returns (l': Lease)
    ensures l'.uuid == l.uuid
    ensures var r := WithdrawOne(st, env, l);
            r.Ok? ==> r.value.st.leases == st.leases || r.value.st.leases == st.leases[l.uuid := l']
  {
    hide Settle, ShouldAutoClose, Ledger.SetLease, Finish;
    FinishTouchesOne(st, env, l, true, CREDIT_EXHAUSTED, false);
    l' := ClosedLease(l, env.now, CREDIT_EXHAUSTED);
    if ShouldAutoClose(st.bank, l, env.now) == Ok(false) {
      l' := l.(lastSettledAt := SettleTime(l, env.now));
      var s := Settle(st.bank, env.catalog, l, SettleTime(l, env.now), false);
      if s.Ok? {
        WriteTouchesOne(st.(bank := s.value.bank), l');
      }
    }
  }

  lemma WithdrawStep(env: Env, st0: Store, us: seq<Uuid>, i: nat, st: Store, leases: seq<Lease>, tenants: set<Address>, receipts: seq<Receipt>)
    requires i < |us| == |leases| && Distinct(us) && ToCome(st.leases, us, i, leases, tenants)
    requires Batch(OpWithdraw, env, st0, us[..i]) == Ok(Out(st, receipts))
    ensures var r := WithdrawOne(st, env, leases[i]);
            && (r.Err? ==> Batch(OpWithdraw, env, st0, us) == Err(r.error))
            && (r.Ok? ==> Batch(OpWithdraw, env, st0, us[..i + 1]) == Ok(Out(r.value.st, receipts + r.value.receipts))
                          && ToCome(r.value.st.leases, us, i + 1, leases, tenants))
  {
    hide WithdrawOne, Batch;
    assert One(OpWithdraw, env, st, us[i]) == WithdrawOne(st, env, leases[i]);
    hide One;
    BatchNext(OpWithdraw, env, st0, us, i);
    var r := WithdrawOne(st, env, leases[i]);
    if r.Err? {
      BatchFails(OpWithdraw, env, st0, us, i + 1);
    } else {
      var l' := WithdrawTouchesOne(st, env, leases[i]);
      ToComeNext(st.leases, us, i, leases, tenants, l');
    }
  }

  // ---------------------------------------------------------------- creating

  /** Lease creation after the message checks. */
  function Creation(env: Env, st: Store, tenant: Address, inputs: seq<LeaseItemInput>, metaHash: seq<int>): Result<Store> {
    var ca :- Admit(st, tenant, |inputs|);
    var q :- PriceItems(env.catalog, inputs);
    if q.provider !in env.catalog.providers then Err(ProviderNotFound)
    else if !env.catalog.providers[q.provider].active then Err(ProviderNotActive)
    else
      var reservation := Scale(Rates(q.items), st.params.minLeaseDuration);
      if !Covers(Free(st, tenant, Rates(q.items).Keys), reservation) then Err(InsufficientCredit)
      else Place(st, NewLease(env, st, tenant, q, metaHash), Reserve(ca, reservation))
  }

  lemma CreateIsCreation(env: Env, st: Store, tenant: Address, inputs: seq<LeaseItemInput>, metaHash: seq<int>)
    ensures var spec := Ledger.CreateLease(env, st, tenant, inputs, metaHash);
            if |metaHash| > MAX_META_HASH_LENGTH then spec == Err(InvalidMetaHash)
            else if CheckLeaseItems(inputs).Err? then spec == Err(CheckLeaseItems(inputs).error)
            else
              var c := Creation(env, st, tenant, inputs, metaHash);
              spec == if c.Ok? then Ok(Out(c.value, [])) else Err(c.error)
  {
    hide CheckLeaseItems, PriceItems, Rates, Scale, Covers, Free, Place, NewLease, Reserve;
  }

  lemma PriceNone(catalog: Catalog)
    ensures PriceItems(catalog, []) == Ok(Quote("", [])) && Rates([]) == NO_COINS
  {
    CoinsEqual(Rates([]), NO_COINS);
  }

  lemma PriceNext(catalog: Catalog, inputs: seq<LeaseItemInput>, i: nat)
    requires i < |inputs| && PriceItems(catalog, inputs[..i]).Ok?
    ensures var q := PriceItems(catalog, inputs[..i]).value;
            var it := inputs[i];
            PriceItems(catalog, inputs[..i + 1]) ==
            if it.skuUuid !in catalog.skus then Err(SkuNotFound)
            else
              var sku := catalog.skus[it.skuUuid];
              if !sku.active then Err(SkuNotActive)
              else if i > 0 && sku.providerUuid != q.provider then Err(MixedProviders)
              else if PricePerSecond(sku).None? then Err(SkuNotFound)
              else Ok(Quote(sku.providerUuid, q.items + [LeaseItem(it.skuUuid, it.quantity, PricePerSecond(sku).value, it.serviceName, "")]))
  {
    assert inputs[..i + 1][..i] == inputs[..i];
  }

  lemma {:induction false} PriceFails(catalog: Catalog, inputs: seq<LeaseItemInput>, i: nat)
    requires i <= |inputs| && PriceItems(catalog, inputs[..i]).Err?
    ensures PriceItems(catalog, inputs) == PriceItems(catalog, inputs[..i])
    decreases |inputs|
  {
    if i == |inputs| {
      assert inputs[..i] == inputs;
    } else {
      var n := |inputs| - 1;
      assert inputs[..n][..i] == inputs[..i];
      PriceFails(catalog, inputs[..n], i);
    }
  }
}
