/** The billing ledger as a state machine on values.  Every operation is written in its simple
    form: batches are left folds of one-lease steps, nothing is cached, and a refused message
    leaves the store as it was.  Module `Keeper` holds the staged, cached form. */
module Ledger {
  import opened Coins
  import opened Types
  import opened Reservations
  import opened Accrual
  import opened DomainIndex
  import opened Names
  import opened Text
  import UuidV7

  type Bank = map<Address, Coins>

  datatype Store = Store(
    params: Params,
    leases: map<Uuid, Lease>,
    sequence: nat,
    accounts: map<Address, CreditAccount>,
    creditIndex: map<Address, Address>,
    skuIndex: set<(string, Uuid)>,
    domainIndex: Index,
    bank: Bank)

  /** What a block fixes from outside: its time, the SKU module's content and the constants. */
  datatype Env = Env(now: Time, catalog: Catalog, authority: Address, entropy: UuidV7.Entropy)

  // ---------------------------------------------------------------- primitives

  function Balance(bank: Bank, a: Address): Coins {
    if a in bank then bank[a] else NO_COINS
  }

  function Send(bank: Bank, from: Address, to: Address, amount: Coins): Result<Bank> {
    if !Covers(Balance(bank, from), amount) then Err(InvalidCreditOperation)
    else
      var debited := bank[from := Monus(Balance(bank, from), amount)];
      Ok(debited[to := Add(Balance(debited, to), amount)])
  }

  function SkuEntries(l: Lease): set<(string, Uuid)> {
    set it | it in l.items :: (it.skuUuid, l.uuid)
  }

  function SetLease(st: Store, l: Lease): Result<Store> {
    var idx :- Reconcile(st.domainIndex, Previous(st.leases, l.uuid), l);
    Ok(st.(leases := st.leases[l.uuid := l], skuIndex := st.skuIndex + SkuEntries(l), domainIndex := idx))
  }

  function SetAccount(st: Store, ca: CreditAccount): Store {
    st.(accounts := st.accounts[ca.tenant := ca],
    creditIndex := st.creditIndex[Credit(ca.tenant) := ca.tenant])
  }

  // ---------------------------------------------------------------- settlement

  /** Credit of the lease's tenant in the denominations the lease uses. */
  function Available(bank: Bank, l: Lease): Coins {
    Restrict(Balance(bank, Credit(l.tenant)), Denoms(l.items))
  }

  datatype Settlement = Settlement(bank: Bank, transfer: Coins, accrued: Coins)

  /** Charge the time since the last settlement.  An overflowing gap is refused, or takes all
      the available credit when `silent`. */
  function Settle(bank: Bank, catalog: Catalog, l: Lease, at: Time, silent: bool): Result<Settlement> {
    var gap := Sub(at, l.lastSettledAt);
    if gap <= 0 then Ok(Settlement(bank, NO_COINS, NO_COINS))
    else if Overflows(l.items, gap) && !silent then Err(InvalidCreditOperation)
    else
      var accrued := if Overflows(l.items, gap) then Available(bank, l) else Accrued(l.items, gap);
      var transfer := Meet(accrued, Available(bank, l));
      if transfer == NO_COINS then Ok(Settlement(bank, NO_COINS, accrued))
      else if l.providerUuid !in catalog.providers then Err(ProviderNotFound)
      else
        var after :- Send(bank, Credit(l.tenant), catalog.providers[l.providerUuid].payoutAddress, transfer);
        Ok(Settlement(after, transfer, accrued))
  }

  /** The credit does not strictly exceed what has accrued, in some denomination of the lease. */
  predicate Exhausted(bank: Bank, l: Lease, now: Time) {
    var gap := Sub(now, l.lastSettledAt);
    if gap > 0 then
      Overflows(l.items, gap) ||
      exists d :: d in Accrued(l.items, gap) && Accrued(l.items, gap)[d] >= AmountOf(Available(bank, l), d)
    else
      exists i :: 0 <= i < |l.items| && AmountOf(Available(bank, l), l.items[i].lockedPrice.denom) == 0
  }

  function ShouldAutoClose(bank: Bank, l: Lease, now: Time): Result<bool> {
    if l.state != Active then Ok(false)
    else if Sub(now, l.lastSettledAt) < 0 then Err(InvalidLease)
    else Ok(Exhausted(bank, l, now))
  }

  // ---------------------------------------------------------------- lease transitions

  function Acknowledged(l: Lease, now: Time): Lease {
    l.(state := Active, acknowledgedAt := Some(now), lastSettledAt := now)
  }

  function RejectedLease(l: Lease, now: Time, reason: string): Lease {
    l.(state := Rejected, rejectedAt := Some(now), rejectionReason := reason)
  }

  function ExpiredLease(l: Lease, now: Time): Lease {
    l.(state := Expired, expiredAt := Some(now))
  }

  function ClosedLease(l: Lease, now: Time, reason: string): Lease {
    l.(state := Closed, closedAt := Some(now), lastSettledAt := now, closureReason := reason)
  }

  function Dec(n: nat): nat { if n > 0 then n - 1 else 0 }

  /** How an account follows a transition of one of its leases. */
  datatype AccountChange = Promote | DropPending(released: Coins) | DropActive(released: Coins)

  function Changed(ca: CreditAccount, c: AccountChange): (r: CreditAccount)
    ensures r.tenant == ca.tenant && r.creditAddress == ca.creditAddress
  {
    match c
    case Promote =>
      ca.(pendingLeaseCount := Dec(ca.pendingLeaseCount), activeLeaseCount := ca.activeLeaseCount + 1)
    case DropPending(released) =>
      ca.(pendingLeaseCount := Dec(ca.pendingLeaseCount), reservedAmounts := Monus(ca.reservedAmounts, released))
    case DropActive(released) =>
      ca.(activeLeaseCount := Dec(ca.activeLeaseCount), reservedAmounts := Monus(ca.reservedAmounts, released))
  }

  /** One payment: what a settlement moved for one lease, and over which period. */
  datatype Receipt = Receipt(
    uuid: Uuid, tenant: Address, payout: Address, from: Time, to: Time,
    accrued: Coins, transfer: Coins, closed: bool)

  datatype Out = Out(st: Store, receipts: seq<Receipt>)

  function Payout(catalog: Catalog, l: Lease): Address {
    if l.providerUuid in catalog.providers then catalog.providers[l.providerUuid].payoutAddress
    else Credit(l.tenant)
  }

  function MakeReceipt(catalog: Catalog, l: Lease, at: Time, s: Settlement, closed: bool): Receipt {
    Receipt(l.uuid, l.tenant, Payout(catalog, l), l.lastSettledAt, at, s.accrued, s.transfer, closed)
  }

  /** Write the lease, then the account of its tenant.  Batch handlers report a refused lease
      write as an invalid lease. */
  function Move(st: Store, l: Lease, c: AccountChange, wrap: bool): Result<Store> {
    var r := SetLease(st, l);
    if r.Err? then Err(if wrap then InvalidLease else r.error)
    else if l.tenant !in r.value.accounts then Err(CreditAccountNotFound)
    else Ok(SetAccount(r.value, Changed(r.value.accounts[l.tenant], c)))
  }

  function Release(st: Store, l: Lease): Coins { Reservation(l, st.params.minLeaseDuration) }

  function AcknowledgeOne(st: Store, now: Time, l: Lease): Result<Out> {
    if l.state != Pending then Err(LeaseNotPending)
    else
      var st' :- Move(st, Acknowledged(l, now), Promote, true);
      Ok(Out(st', []))
  }

  function RejectOne(st: Store, now: Time, l: Lease, reason: string): Result<Out> {
    if l.state != Pending then Err(LeaseNotPending)
    else
      var st' :- Move(st, RejectedLease(l, now, reason), DropPending(Release(st, l)), true);
      Ok(Out(st', []))
  }

  function ExpireOne(st: Store, now: Time, l: Lease): Result<Out> {
    if l.state != Pending then Err(LeaseNotPending)
    else
      var st' :- Move(st, ExpiredLease(l, now), DropPending(Release(st, l)), false);
      Ok(Out(st', []))
  }

  /** Settle up to now and close; `silent` when the credit is exhausted. */
  function Finish(st: Store, env: Env, l: Lease, silent: bool, reason: string, wrap: bool): Result<Out> {
    var s :- Settle(st.bank, env.catalog, l, env.now, silent);
    var st' :- Move(st.(bank := s.bank), ClosedLease(l, env.now, reason), DropActive(Release(st, l)), wrap);
    Ok(Out(st', [MakeReceipt(env.catalog, l, env.now, s, true)]))
  }

  function CloseOne(st: Store, env: Env, l: Lease, reason: string): Result<Out> {
    if l.state != Active then Err(LeaseNotActive)
    else
      var exhausted :- ShouldAutoClose(st.bank, l, env.now);
      Finish(st, env, l, exhausted, if exhausted then CREDIT_EXHAUSTED else reason, true)
  }

  function SettleTime(l: Lease, now: Time): Time {
    if l.state == Active then now
    else if l.closedAt.Some? then l.closedAt.value
    else l.lastSettledAt
  }

  /** Settle one lease for its provider; an exhausted lease is closed on the way.  A lease with
      nothing to settle is passed over. */
  function WithdrawOne(st: Store, env: Env, l: Lease): Result<Out> {
    var exhausted :- ShouldAutoClose(st.bank, l, env.now);
    if exhausted then Finish(st, env, l, true, CREDIT_EXHAUSTED, false)
    else
      var at := SettleTime(l, env.now);
      var s :- Settle(st.bank, env.catalog, l, at, false);
      if s.accrued == NO_COINS then Ok(Out(st, []))
      else
        var st' :- SetLease(st.(bank := s.bank), l.(lastSettledAt := at));
        Ok(Out(st', [MakeReceipt(env.catalog, l, at, s, false)]))
  }

  /** The same in a provider-wide sweep: overflow is settled silently and a lease that pays
      nothing is passed over. */
  function SweepOne(st: Store, env: Env, l: Lease): Result<Out> {
    var exhausted :- ShouldAutoClose(st.bank, l, env.now);
    if exhausted then Finish(st, env, l, true, CREDIT_EXHAUSTED, false)
    else
      var at := SettleTime(l, env.now);
      if at <= l.lastSettledAt then Ok(Out(st, []))
      else
        var s :- Settle(st.bank, env.catalog, l, at, true);
        if s.transfer == NO_COINS then Ok(Out(st, []))
        else
          var st' :- SetLease(st.(bank := s.bank), l.(lastSettledAt := at));
          Ok(Out(st', [MakeReceipt(env.catalog, l, at, s, false)]))
  }

  /** What the query reports as withdrawable; it answers nothing on overflow. */
  function Withdrawable(bank: Bank, l: Lease, now: Time): Coins {
    var gap := Sub(SettleTime(l, now), l.lastSettledAt);
    if gap <= 0 || Overflows(l.items, gap) then NO_COINS
    else Meet(Accrued(l.items, gap), Available(bank, l))
  }

  // ---------------------------------------------------------------- batches

  datatype Op = OpAcknowledge | OpReject(reason: string) | OpClose(reason: string) | OpWithdraw | OpSweep | OpExpire

  /** Sweep and expiry skip a lease that fails; every other batch fails with it. */
  predicate Lenient(op: Op) { op.OpSweep? || op.OpExpire? }

  function Strict(op: Op, env: Env, st: Store, u: Uuid): Result<Out> {
    if u !in st.leases then Err(LeaseNotFound)
    else
      var l := st.leases[u];
      match op
      case OpAcknowledge => AcknowledgeOne(st, env.now, l)
      case OpReject(reason) => RejectOne(st, env.now, l, reason)
      case OpClose(reason) => CloseOne(st, env, l, reason)
      case OpWithdraw => WithdrawOne(st, env, l)
      case OpSweep => SweepOne(st, env, l)
      case OpExpire => ExpireOne(st, env.now, l)
  }

  function One(op: Op, env: Env, st: Store, u: Uuid): Result<Out> {
    var r := Strict(op, env, st, u);
    if r.Err? && Lenient(op) then Ok(Out(st, [])) else r
  }

  function Batch(op: Op, env: Env, st: Store, us: seq<Uuid>): Result<Out> {
    if us == [] then Ok(Out(st, []))
    else
      var before :- Batch(op, env, st, us[..|us| - 1]);
      var last :- One(op, env, before.st, us[|us| - 1]);
      Ok(Out(last.st, before.receipts + last.receipts))
  }

  // ---------------------------------------------------------------- messages

  predicate Distinct(us: seq<Uuid>) {
    forall i, j :: 0 <= i < j < |us| ==> us[i] != us[j]
  }

  predicate ValidBatch(us: seq<Uuid>) {
    && 0 < |us| <= MAX_BATCH_LEASE_SIZE
    && (forall i :: 0 <= i < |us| ==> UuidV7.IsValidUUIDv7(us[i]))
    && Distinct(us)
  }

  function CheckBatch(us: seq<Uuid>): Result<()> {
    if ValidBatch(us) then Ok(()) else Err(InvalidLease)
  }

  function AuthorizeProvider(env: Env, sender: Address, provider: string): Result<Provider> {
    if provider !in env.catalog.providers then Err(ProviderNotFound)
    else
      var p := env.catalog.providers[provider];
      if sender != p.address && sender != env.authority then Err(Unauthorized) else Ok(p)
  }

  /** Every lease is pending, has an account and belongs to the same provider, which is returned. */
  function PendingProvider(st: Store, us: seq<Uuid>): Result<string> {
    if us == [] then Ok("")
    else
      var provider :- PendingProvider(st, us[..|us| - 1]);
      var u := us[|us| - 1];
      if u !in st.leases then Err(LeaseNotFound)
      else
        var l := st.leases[u];
        if l.state != Pending then Err(LeaseNotPending)
        else if provider != "" && l.providerUuid != provider then Err(MixedProviders)
        else if l.tenant !in st.accounts then Err(CreditAccountNotFound)
        else Ok(if provider == "" then l.providerUuid else provider)
  }

  function AcknowledgeLease(env: Env, st: Store, sender: Address, us: seq<Uuid>): Result<Out> {
    var _ :- CheckBatch(us);
    var provider :- PendingProvider(st, us);
    var _ :- AuthorizeProvider(env, sender, provider);
    Batch(OpAcknowledge, env, st, us)
  }

  function RejectLease(env: Env, st: Store, sender: Address, us: seq<Uuid>, reason: string): Result<Out> {
    var _ :- CheckBatch(us);
    if |reason| > MAX_REASON_LENGTH then Err(InvalidRejectionReason)
    else
      var provider :- PendingProvider(st, us);
      var _ :- AuthorizeProvider(env, sender, provider);
      Batch(OpReject(reason), env, st, us)
  }

  function CheckCancel(st: Store, tenant: Address, us: seq<Uuid>): Result<()> {
    if us == [] then Ok(())
    else
      var _ :- CheckCancel(st, tenant, us[..|us| - 1]);
      var u := us[|us| - 1];
      if u !in st.leases then Err(LeaseNotFound)
      else if st.leases[u].tenant != tenant then Err(Unauthorized)
      else if st.leases[u].state != Pending then Err(LeaseNotPending)
      else Ok(())
  }

  function CancelLease(env: Env, st: Store, tenant: Address, us: seq<Uuid>): Result<Out> {
    var _ :- CheckBatch(us);
    var _ :- CheckCancel(st, tenant, us);
    if tenant !in st.accounts then Err(CreditAccountNotFound)
    else Batch(OpReject(CANCELLED_BY_TENANT), env, st, us)
  }

  datatype Role = AsTenant | AsProvider | AsAuthority

  function RoleFor(env: Env, sender: Address, l: Lease): Option<Role> {
    if sender == env.authority then Some(AsAuthority)
    else if sender == l.tenant then Some(AsTenant)
    else if l.providerUuid in env.catalog.providers && sender == env.catalog.providers[l.providerUuid].address then Some(AsProvider)
    else None
  }

  /** Every lease is active and has an account, and the sender may close all of them in one role. */
  function CloseRole(env: Env, st: Store, sender: Address, us: seq<Uuid>): Result<Option<Role>> {
    if us == [] then Ok(None)
    else
      var role :- CloseRole(env, st, sender, us[..|us| - 1]);
      var u := us[|us| - 1];
      if u !in st.leases then Err(LeaseNotFound)
      else
        var l := st.leases[u];
        var mine := RoleFor(env, sender, l);
        if l.state != Active then Err(LeaseNotActive)
        else if mine.None? then Err(Unauthorized)
        else if role.Some? && role != mine then Err(Unauthorized)
        else if l.tenant !in st.accounts then Err(CreditAccountNotFound)
        else Ok(mine)
  }

  function CloseLease(env: Env, st: Store, sender: Address, us: seq<Uuid>, reason: string): Result<Out> {
    var _ :- CheckBatch(us);
    if |reason| > MAX_REASON_LENGTH then Err(InvalidClosureReason)
    else
      var _ :- CloseRole(env, st, sender, us);
      Batch(OpClose(reason), env, st, us)
  }

  /** The provider of all the leases, which the sender must be or act for. */
  function WithdrawProvider(env: Env, st: Store, sender: Address, us: seq<Uuid>): Result<string> {
    if us == [] then Ok("")
    else
      var provider :- WithdrawProvider(env, st, sender, us[..|us| - 1]);
      var u := us[|us| - 1];
      if u !in st.leases then Err(LeaseNotFound)
      else if |us| == 1 then
        var _ :- AuthorizeProvider(env, sender, st.leases[u].providerUuid);
        Ok(st.leases[u].providerUuid)
      else if st.leases[u].providerUuid != provider then Err(InvalidLease)
      else Ok(provider)
  }

  function WithdrawLeases(env: Env, st: Store, sender: Address, us: seq<Uuid>): Result<Out> {
    var _ :- CheckBatch(us);
    var _ :- WithdrawProvider(env, st, sender, us);
    var out :- Batch(OpWithdraw, env, st, us);
    if out.receipts == [] then Err(NoWithdrawableAmount) else Ok(out)
  }

  function ProviderLeases(st: Store, provider: string, state: LeaseState): seq<Uuid> {
    Sorted(set u | u in st.leases && st.leases[u].providerUuid == provider && st.leases[u].state == state)
  }

  function EffectiveLimit(limit: nat): nat {
    if limit == 0 then DEFAULT_PROVIDER_WITHDRAW_LIMIT else limit
  }

  /** Active leases first, then closed ones, up to the limit. */
  function SweepTargets(st: Store, provider: string, limit: nat): seq<Uuid> {
    Take(ProviderLeases(st, provider, Active) + ProviderLeases(st, provider, Closed), EffectiveLimit(limit))
  }

  function WithdrawAll(env: Env, st: Store, sender: Address, provider: string, limit: nat): Result<Out> {
    if !UuidV7.IsValidUUIDv7(provider) then Err(ProviderNotFound)
    else if limit > MAX_BATCH_LEASE_SIZE then Err(InvalidLease)
    else
      var _ :- AuthorizeProvider(env, sender, provider);
      Batch(OpSweep, env, st, SweepTargets(st, provider, limit))
  }

  predicate Overdue(params: Params, l: Lease, now: Time) {
    l.state == Pending && now > l.createdAt + params.pendingTimeout * NANOS_PER_SECOND
  }

  function OverdueLeases(st: Store, now: Time): set<Uuid> {
    set u | u in st.leases && Overdue(st.params, st.leases[u], now)
  }

  function EndBlock(env: Env, st: Store): Result<Out> {
    Batch(OpExpire, env, st, Take(Sorted(OverdueLeases(st, env.now)), MAX_PENDING_LEASE_EXPIRATIONS_PER_BLOCK))
  }

  function NewAccount(tenant: Address): CreditAccount {
    CreditAccount(tenant, Credit(tenant), 0, 0, NO_COINS)
  }

  function FundCredit(st: Store, sender: Address, tenant: Address, amount: Coin): Result<Out> {
    if amount.amount == 0 || !ValidDenom(amount.denom) then Err(InvalidCreditOperation)
    else
      var bank :- Send(st.bank, sender, Credit(tenant), Single(amount));
      var ca := if tenant in st.accounts then st.accounts[tenant] else NewAccount(tenant);
      Ok(Out(SetAccount(st.(bank := bank), ca), []))
  }

  // ---------------------------------------------------------------- lease creation

  function CheckItem(it: LeaseItemInput): Result<()> {
    if !UuidV7.IsValidUUIDv7(it.skuUuid) then Err(InvalidLease)
    else if it.quantity == 0 || it.quantity > MAX_QUANTITY_PER_ITEM then Err(InvalidQuantity)
    else Ok(())
  }

  function CheckEachItem(items: seq<LeaseItemInput>): Result<()> {
    if items == [] then Ok(())
    else
      var _ :- CheckEachItem(items[..|items| - 1]);
      CheckItem(items[|items| - 1])
  }

  predicate AllNamed(items: seq<LeaseItemInput>) { forall i :: 0 <= i < |items| ==> items[i].serviceName != "" }
  predicate NoneNamed(items: seq<LeaseItemInput>) { forall i :: 0 <= i < |items| ==> items[i].serviceName == "" }

  predicate GoodNames(items: seq<LeaseItemInput>) {
    && (forall i :: 0 <= i < |items| ==> ValidLabel(items[i].serviceName))
    && (forall i, j :: 0 <= i < j < |items| ==> items[i].serviceName != items[j].serviceName)
  }

  predicate DistinctSkus(items: seq<LeaseItemInput>) {
    forall i, j :: 0 <= i < j < |items| ==> items[i].skuUuid != items[j].skuUuid
  }

  function CheckLeaseItems(items: seq<LeaseItemInput>): Result<()> {
    if items == [] then Err(EmptyLeaseItems)
    else if |items| > MAX_ITEMS_PER_LEASE_HARD_LIMIT then Err(TooManyLeaseItems)
    else
      var _ :- CheckEachItem(items);
      if NoneNamed(items) then if DistinctSkus(items) then Ok(()) else Err(DuplicateSku)
      else if AllNamed(items) && GoodNames(items) then Ok(())
      else Err(InvalidServiceName)
  }

  datatype Quote = Quote(provider: string, items: seq<LeaseItem>)

  /** Lock the prices; all SKUs must be active, priced and of one provider. */
  function PriceItems(catalog: Catalog, inputs: seq<LeaseItemInput>): Result<Quote> {
    if inputs == [] then Ok(Quote("", []))
    else
      var q :- PriceItems(catalog, inputs[..|inputs| - 1]);
      var it := inputs[|inputs| - 1];
      if it.skuUuid !in catalog.skus then Err(SkuNotFound)
      else
        var sku := catalog.skus[it.skuUuid];
        if !sku.active then Err(SkuNotActive)
        else if |inputs| > 1 && sku.providerUuid != q.provider then Err(MixedProviders)
        else if PricePerSecond(sku).None? then Err(SkuNotFound)
        else Ok(Quote(sku.providerUuid, q.items + [LeaseItem(it.skuUuid, it.quantity, PricePerSecond(sku).value, it.serviceName, "")]))
  }

  function NewLease(env: Env, st: Store, tenant: Address, q: Quote, metaHash: seq<int>): Lease {
    Lease(UuidV7.Generate(env.now, env.entropy, st.sequence), tenant, q.provider, q.items, Pending,
          env.now, None, env.now, None, None, "", None, "", metaHash, st.params.minLeaseDuration)
  }

  function Reserve(ca: CreditAccount, reservation: Coins): CreditAccount {
    ca.(reservedAmounts := Add(ca.reservedAmounts, reservation), pendingLeaseCount := ca.pendingLeaseCount + 1)
  }

  /** Take a sequence number, write a new lease and the account that pays for it. */
  function Place(st: Store, l: Lease, ca: CreditAccount): Result<Store> {
    var st1 :- SetLease(st.(sequence := st.sequence + 1), l);
    Ok(SetAccount(st1, ca))
  }

  /** Credit a tenant has left for a new lease: balance less reservations, in the given denominations. */
  function Free(st: Store, tenant: Address, denoms: set<string>): Coins
    requires tenant in st.accounts
  {
    Monus(Restrict(Balance(st.bank, Credit(tenant)), denoms), st.accounts[tenant].reservedAmounts)
  }

  function Admit(st: Store, tenant: Address, count: nat): Result<CreditAccount> {
    if count > st.params.maxItemsPerLease then Err(TooManyLeaseItems)
    else if tenant !in st.accounts then Err(CreditAccountNotFound)
    else if st.accounts[tenant].activeLeaseCount >= st.params.maxLeasesPerTenant then Err(MaxLeasesReached)
    else if st.accounts[tenant].pendingLeaseCount >= st.params.maxPendingLeasesPerTenant then Err(MaxPendingLeasesReached)
    else Ok(st.accounts[tenant])
  }

  function CreateLease(env: Env, st: Store, tenant: Address, inputs: seq<LeaseItemInput>, metaHash: seq<int>): Result<Out> {
    if |metaHash| > MAX_META_HASH_LENGTH then Err(InvalidMetaHash)
    else
      var _ :- CheckLeaseItems(inputs);
      var ca :- Admit(st, tenant, |inputs|);
      var q :- PriceItems(env.catalog, inputs);
      if q.provider !in env.catalog.providers then Err(ProviderNotFound)
      else if !env.catalog.providers[q.provider].active then Err(ProviderNotActive)
      else
        var reservation := Scale(Rates(q.items), st.params.minLeaseDuration);
        if !Covers(Free(st, tenant, Rates(q.items).Keys), reservation) then Err(InsufficientCredit)
        else
          var st' :- Place(st, NewLease(env, st, tenant, q, metaHash), Reserve(ca, reservation));
          Ok(Out(st', []))
  }

  predicate IsAdmin(env: Env, st: Store, sender: Address) {
    sender == env.authority || sender in st.params.allowedList
  }

  function CreateLeaseForTenant(env: Env, st: Store, sender: Address, tenant: Address, inputs: seq<LeaseItemInput>, metaHash: seq<int>): Result<Out> {
    if |metaHash| > MAX_META_HASH_LENGTH then Err(InvalidMetaHash)
    else
      var _ :- CheckLeaseItems(inputs);
      if !IsAdmin(env, st, sender) then Err(Unauthorized)
      else CreateLease(env, st, tenant, inputs, metaHash)
  }

  // ---------------------------------------------------------------- custom domains and parameters

  predicate IsOnly(items: seq<LeaseItem>, service: string, i: nat) {
    && i < |items| && items[i].serviceName == service
    && forall j :: 0 <= j < |items| && items[j].serviceName == service ==> j == i
  }

  /** The one item with this service name. */
  function FindItem(l: Lease, service: string): (r: Result<nat>)
    ensures r.Ok? ==> IsOnly(l.items, service, r.value)
    ensures r.Err? ==> r.error == LeaseItemNotFound || r.error == AmbiguousLeaseItem
  {
    if |l.items| > 1 && l.items[0].serviceName == "" then Err(AmbiguousLeaseItem)
    else if exists i :: 0 <= i < |l.items| && IsOnly(l.items, service, i) then
      var i :| 0 <= i < |l.items| && IsOnly(l.items, service, i);
      Ok(i)
    else if exists i :: 0 <= i < |l.items| && l.items[i].serviceName == service then Err(AmbiguousLeaseItem)
    else Err(LeaseItemNotFound)
  }

  function WithDomain(l: Lease, i: nat, domain: string): Lease
    requires i < |l.items|
  {
    l.(items := l.items[i := l.items[i].(customDomain := domain)])
  }

  /** The lease as the edit leaves it, or nothing when the edit changes nothing. */
  function DomainEdit(env: Env, st: Store, sender: Address, u: Uuid, service: string, raw: string): Result<Option<Lease>> {
    if u !in st.leases then Err(LeaseNotFound)
    else
      var l := st.leases[u];
      if sender != l.tenant && !IsAdmin(env, st, sender) then Err(Unauthorized)
      else if !Live(l) then Err(LeaseNotEditable)
      else
        var i :- FindItem(l, service);
        var domain := Normalize(raw);
        if domain == "" then Ok(if l.items[i].customDomain == "" then None else Some(WithDomain(l, i, "")))
        else if !ValidFqdn(domain) || Reserved(domain, st.params.reservedDomainSuffixes) then Err(InvalidCustomDomain)
        else if domain !in st.domainIndex then Ok(Some(WithDomain(l, i, domain)))
        else if st.domainIndex[domain] == CustomDomainTarget(u, service) then Ok(None)
        else Err(CustomDomainAlreadyClaimed)
  }

  /** What an edit of an item's domain does to the store. */
  function EditedStore(env: Env, st: Store, sender: Address, u: Uuid, service: string, raw: string): Result<Store> {
    var edit :- DomainEdit(env, st, sender, u, service, raw);
    if edit.None? then Ok(st) else SetLease(st, edit.value)
  }

  function SetItemCustomDomain(env: Env, st: Store, sender: Address, u: Uuid, service: string, raw: string): Result<Out> {
    if !UuidV7.IsValidUUIDv7(u) then Err(InvalidLease)
    else if service != "" && !ValidLabel(service) then Err(InvalidServiceName)
    else if raw != "" && !ValidFqdn(raw) then Err(InvalidCustomDomain)
    else
      var st' :- EditedStore(env, st, sender, u, service, raw);
      Ok(Out(st', []))
  }

  predicate DistinctAddresses(q: seq<Address>) { forall i, j :: 0 <= i < j < |q| ==> q[i] != q[j] }
  predicate DistinctStrings(q: seq<string>) { forall i, j :: 0 <= i < j < |q| ==> q[i] != q[j] }

  predicate ValidParams(p: Params) {
    && 0 < p.maxLeasesPerTenant <= 10_000
    && 0 < p.maxItemsPerLease <= MAX_ITEMS_PER_LEASE_HARD_LIMIT
    && 0 < p.minLeaseDuration <= 30 * 24 * 3600
    && 0 < p.maxPendingLeasesPerTenant <= 1_000
    && 60 <= p.pendingTimeout <= 86400
    && DistinctAddresses(p.allowedList)
    && (forall i :: 0 <= i < |p.reservedDomainSuffixes| ==> ValidSuffix(p.reservedDomainSuffixes[i]))
    && DistinctStrings(p.reservedDomainSuffixes)
  }

  function UpdateParams(env: Env, st: Store, sender: Address, params: Params): Result<Out> {
    if !ValidParams(params) then Err(InvalidParams)
    else if sender != env.authority then Err(Unauthorized)
    else Ok(Out(st.(params := params), []))
  }

  // ---------------------------------------------------------------- runs

  /** What can happen to the store.  `External` is any activity of the other modules on the bank. */
  datatype Event =
    | Fund(sender: Address, tenant: Address, amount: Coin)
    | Create(tenant: Address, inputs: seq<LeaseItemInput>, metaHash: seq<int>)
    | CreateFor(sender: Address, tenant: Address, inputs: seq<LeaseItemInput>, metaHash: seq<int>)
    | Acknowledge(sender: Address, uuids: seq<Uuid>)
    | Reject(sender: Address, uuids: seq<Uuid>, reason: string)
    | Cancel(tenant: Address, uuids: seq<Uuid>)
    | Close(sender: Address, uuids: seq<Uuid>, reason: string)
    | Withdraw(sender: Address, uuids: seq<Uuid>)
    | Sweep(sender: Address, provider: string, limit: nat)
    | SetDomain(sender: Address, uuid: Uuid, service: string, domain: string)
    | SetParams(sender: Address, params: Params)
    | BlockEnd
    | External(bank: Bank)

  function Handle(env: Env, st: Store, ev: Event): Result<Out> {
    match ev
    case Fund(sender, tenant, amount) => FundCredit(st, sender, tenant, amount)
    case Create(tenant, inputs, metaHash) => CreateLease(env, st, tenant, inputs, metaHash)
    case CreateFor(sender, tenant, inputs, metaHash) => CreateLeaseForTenant(env, st, sender, tenant, inputs, metaHash)
    case Acknowledge(sender, us) => AcknowledgeLease(env, st, sender, us)
    case Reject(sender, us, reason) => RejectLease(env, st, sender, us, reason)
    case Cancel(tenant, us) => CancelLease(env, st, tenant, us)
    case Close(sender, us, reason) => CloseLease(env, st, sender, us, reason)
    case Withdraw(sender, us) => WithdrawLeases(env, st, sender, us)
    case Sweep(sender, provider, limit) => WithdrawAll(env, st, sender, provider, limit)
    case SetDomain(sender, u, service, domain) => SetItemCustomDomain(env, st, sender, u, service, domain)
    case SetParams(sender, params) => UpdateParams(env, st, sender, params)
    case BlockEnd => EndBlock(env, st)
    case External(bank) => Ok(Out(st.(bank := bank), []))
  }

  /** Messages are atomic: a refused one changes nothing. */
  function Deliver(env: Env, st: Store, ev: Event): Out {
    var r := Handle(env, st, ev);
    if r.Ok? then r.value else Out(st, [])
  }

  datatype Step = Step(env: Env, event: Event)

  function Run(st: Store, steps: seq<Step>): Out {
    if steps == [] then Out(st, [])
    else
      var before := Run(st, steps[..|steps| - 1]);
      var last := Deliver(steps[|steps| - 1].env, before.st, steps[|steps| - 1].event);
      Out(last.st, before.receipts + last.receipts)
  }
}
