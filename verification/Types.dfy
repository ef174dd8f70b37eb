/** Records of the billing module and of the parts of its surroundings that it reads. */
module Types {
  import opened Coins

  /** Outcome of an operation that can be refused. */
  datatype Result<+T> = Ok(value: T) | Err(error: Error) {
    predicate IsFailure() { Err? }
    function PropagateFailure<U>(): Result<U>
      requires Err?
    {
      Err(error)
    }
    function Extract(): T
      requires Ok?
    {
      value
    }
  }

  datatype Option<+T> = None | Some(value: T)

  datatype Error =
    | LeaseNotFound | LeaseNotActive | LeaseNotPending | LeaseNotEditable
    | LeaseItemNotFound | AmbiguousLeaseItem
    | InvalidLease | InvalidRequest | InvalidParams | InvalidCreditOperation | InvalidMetaHash
    | InvalidRejectionReason | InvalidClosureReason | InvalidQuantity
    | InvalidServiceName | InvalidCustomDomain | CustomDomainAlreadyClaimed
    | EmptyLeaseItems | TooManyLeaseItems | DuplicateSku
    | CreditAccountNotFound | InsufficientCredit | NoWithdrawableAmount
    | MaxLeasesReached | MaxPendingLeasesReached
    | Unauthorized | SkuNotFound | SkuNotActive | ProviderNotFound | ProviderNotActive | MixedProviders
    | AccrualOverflow | InsufficientFunds

  type Uuid = string

  /** Nanoseconds since the Unix epoch. */
  type Time = int

  /** An account on the chain.  The address that holds a tenant's credit is derived from the
      tenant injectively, and no account is its own credit address. */
  datatype Address = Account(id: string) | Credit(tenant: Address)

  datatype LeaseState = Unspecified | Pending | Active | Closed | Rejected | Expired

  datatype LeaseItem = LeaseItem(
    skuUuid: string, quantity: nat, lockedPrice: Coin, serviceName: string, customDomain: string)

  datatype LeaseItemInput = LeaseItemInput(skuUuid: string, quantity: nat, serviceName: string)

  datatype Lease = Lease(
    uuid: Uuid, tenant: Address, providerUuid: string, items: seq<LeaseItem>, state: LeaseState,
    createdAt: Time, closedAt: Option<Time>, lastSettledAt: Time,
    acknowledgedAt: Option<Time>, rejectedAt: Option<Time>, rejectionReason: string,
    expiredAt: Option<Time>, closureReason: string, metaHash: seq<int>,
    minLeaseDurationAtCreation: nat)

  predicate Live(l: Lease) { l.state == Pending || l.state == Active }

  predicate Terminal(l: Lease) { l.state == Closed || l.state == Rejected || l.state == Expired }

  datatype CreditAccount = CreditAccount(
    tenant: Address, creditAddress: Address,
    activeLeaseCount: nat, pendingLeaseCount: nat, reservedAmounts: Coins)

  datatype Params = Params(
    maxLeasesPerTenant: nat, allowedList: seq<Address>, maxItemsPerLease: nat,
    minLeaseDuration: nat, maxPendingLeasesPerTenant: nat, pendingTimeout: nat,
    reservedDomainSuffixes: seq<string>)

  /** Owner of a custom domain: one item of one lease. */
  datatype CustomDomainTarget = CustomDomainTarget(leaseUuid: Uuid, serviceName: string)

  /** The SKU module, read-only here. */
  datatype Unit = UnitUnspecified | PerHour | PerDay
  datatype Sku = Sku(providerUuid: string, active: bool, unit: Unit, basePrice: Coin)
  datatype Provider = Provider(address: Address, payoutAddress: Address, active: bool)
  datatype Catalog = Catalog(skus: map<string, Sku>, providers: map<string, Provider>)

  const MAX_ITEMS_PER_LEASE_HARD_LIMIT := 100
  const MAX_QUANTITY_PER_ITEM := 1_000_000_000
  const MAX_REASON_LENGTH := 256
  const MAX_META_HASH_LENGTH := 64
  const MAX_BATCH_LEASE_SIZE := 100
  const DEFAULT_PROVIDER_WITHDRAW_LIMIT := 50
  const MAX_PENDING_LEASE_EXPIRATIONS_PER_BLOCK := 100
  const CANCELLED_BY_TENANT := "cancelled by tenant"
  const CREDIT_EXHAUSTED := "credit exhausted"
}
