# Billing ledger of the manifest chain: model and proofs

The billing module leases provider services to tenants. A tenant prefunds a credit address; a
lease reserves credit when it is created, starts billing when the provider acknowledges it, and is
settled per second until it is closed by a party or by exhausted credit. This project models the
module as a state machine and proves what its handlers keep together although none of them
enforces it alone.

- `Ledger` is the state machine on values: batches are plain left folds of one-lease steps, nothing
  is cached, and a refused message leaves the store as it was. `Run` is any sequence of events with
  their block environments, including arbitrary bank activity of other modules (`External`).
- `Keeper` (module `BillingKeeper`) and `Messages` hold the imperative form, `Batches` the lemmas about batches in progress: store fields updated in place,
  loops, map iteration in arbitrary order, `CacheContext` as work on a copied keeper that is
  written back, and credit accounts cached in memory during a batch. Every handler is proved equal
  to its ledger step, and `Chain.ExecuteRun` extends this to whole runs.
- `Invariants`, `Reachable`, `Success`, `Payments`, `Conservation`, `Billing`, `Guarantees`,
  `MinimumDuration`, `Overrun`, `Lifetime`, `Expiry`, `Structure` and `Genesis` state the properties, for every reachable store or every run.
- `Access` and `DomainEdits` say exactly when each event is accepted, `Effects` what it does, `Provenance` who
  sent the event behind every change in a run, and `Pricing` ties charges to the catalog's prices. They are
  written from senders, leases, prices, balances and literal lengths of time, not from the handlers' checks.
- `Overview` puts the results together for a chain that starts empty.
- `Coins`, `Reservations`, `Accrual`, `DomainIndex`, `Names`, `UuidV7`, `Text`, `Sums` and `Pagination` are the parts
  these rest on; `GenesisValidation` holds the validation loops, `Counterexamples` concrete stores
  for the promises that fail without a condition.

Time is an integer number of nanoseconds; 64-bit saturation of time differences is modelled. Amounts
are unbounded integers. A coin set is a finite map from denominations to positive amounts.

The theorems about runs start from any store that satisfies their premises and speak of runs in which
no creation meets an identifier in use. `Reachable.RunIsFresh` derives this from the rate of 4096
creations per millisecond, and `Overview` instantiates them for an empty chain and for a chain that
starts from an accepted genesis.

Where the documentation and the code differ, the model follows the code. The comment at the head of
`x/billing/types/credit.go` states the reservation invariant without a condition; for legacy leases
without a stored duration it fails when the minimum duration changes, and
`Reachable.ParamsChangeKeepsReserved` says exactly when it holds. The same comment promises credit for
at least the minimum duration; a lease that runs past its own minimum can use up what another lease
of the tenant has reserved, and `Overrun.RunBackedIff` says exactly when this does not happen. The comment on
`PerformSettlementSilent` in `x/billing/keeper/settlement.go` speaks of empty amounts on overflow; the
code transfers the whole remaining credit in the lease's denominations, and so does the model.

Verify with `dafny verify dfyconfig.toml`.

## Model

| member | source | states |
|---|---|---|
| `Reachable.RunKeepsGood` | x/billing/keeper/keeper.go:425-569 | In every run in which no creation meets an identifier in use, from any good store, legacy leases included: the domain, SKU and credit-address indexes are exact, the cached counters are the true counts, live leases have accounts, records are filed under their keys, and the sequence bounds the number of leases, whatever the messages, their order, parameter changes and other bank activity |
| `Reachable.RunKeepsReserved` | x/billing/types/credit.go:9-161 | In every such run each account's reserved amounts stay the sum of the reservations of its pending and active leases, if the run starts without live legacy leases or never changes the minimum duration |
| `Reachable.RunIsFresh` | pkg/uuid/uuid.go:73-112 | With at most 4096 creations per millisecond, and identifiers at the start that carry none of these milliseconds, no creation of a run meets an identifier in use, so the premise of the theorems about runs holds by itself |
| `Reachable.DeliverKeeps` | x/billing/types/credit.go:9-161 | Every single event keeps the indexes and counters, and the reservations too unless it changes the minimum duration under a live legacy lease; a creation needs its identifier to be unused |
| `Reachable.EmptyIsGood` | x/billing/types/genesis.go:12-18 | A chain without leases and accounts starts in a good store |
| `Reachable.BatchIsKept` | x/billing/keeper/msg_server.go:495-588 | Acknowledge, reject, cancel, close, withdraw, sweep and expiry batches of any length keep the invariants, and change only the listed leases, along the lifecycle |
| `Reachable.CreateKeeps` | x/billing/keeper/msg_server.go:131-301 | A creation adds exactly the quoted lease, takes one sequence number and keeps the invariants: the amount reserved from the accumulated rates is the amount computed from the items later |
| `Reachable.SetDomainKeeps` | x/billing/keeper/custom_domain.go:125-238 | Setting or clearing a domain keeps every invariant and changes at most that field of that item |
| `Reachable.FundKeeps` | x/billing/keeper/msg_server.go:43-117 | Funding keeps every invariant, for a new account and for an existing one |
| `Reachable.ParamsChangeKeepsReserved` | x/billing/types/credit.go:152-161 | A change of the minimum duration keeps the reservation invariant if and only if it changes nothing or no live lease lacks a stored duration |
| `Counterexamples.ParameterChangeBreaksReservations` | x/billing/types/credit.go:152-161 | A genesis with one legacy lease that validation accepts imports to a store with all invariants, and an accepted parameter update then breaks the documented one |
| `Invariants.MoveKeeps` | x/billing/keeper/keeper.go:1028-1107 | One lease transition with its account update keeps indexes, counters and reservations |
| `Invariants.MoveSucceeds` | x/billing/keeper/keeper.go:425-451 | In a store with exact indexes a transition cannot be refused, and it writes just the lease, its index entries and its tenant's account |
| `Invariants.NeverInconsistent` | x/billing/keeper/keeper.go:1061-1107 | In a store with exact counters and reservations the 'already zero' and 'would underflow' branches are not taken for any live lease |
| `Invariants.DropsAreExact` | x/billing/keeper/keeper.go:1061-1107 | There the clamped decrement and the clamped subtraction are exact |
| `Batches.StagingConsistent` | x/billing/keeper/msg_server.go:553-560 | The same in the middle of a batch, for the accounts held in memory |
| `Overview.EveryRunFromEmpty` | x/billing/keeper/keeper.go:290-390 | After every run from an empty chain with at most 4096 creations per millisecond the store has all invariants and its records and parameters are valid, its export is valid unless a stored domain was reserved since, and importing the export rebuilds it; identifier order is creation order if block times that differ, differ in milliseconds |
| `Overview.EveryRunFromGenesis` | x/billing/keeper/keeper.go:290-352 | After every run from a genesis that validation accepts, legacy leases included, with identifiers earlier than the first creation and at most 4096 creations per millisecond: indexes and counters are exact and records valid; the reservations are exact if no live lease was a legacy one or the minimum duration was left alone; with ordered timestamps these stay ordered, the lifecycle is respected, every lease is billed fairly and every new state has a cause in the run |
| `Overview.PacedIsFresh` | pkg/uuid/uuid.go:73-112 | From any good store whose identifiers carry earlier milliseconds, that pace of creations makes every new identifier fresh |
| `Overview.EmptyMeetsPremises` | x/billing/types/genesis.go:12-18 | An empty chain meets what the theorems about runs ask of the store they start from, so none of them is vacuous |
| `Overview.RunIsOrderly` | pkg/uuid/uuid.go:73-112 | Along every run identifiers are ordered as creation times are, which is the order in which the end blocker visits leases |
| `Chain.ExecuteRun` | x/billing/keeper/msg_server.go:43-1474 | Executing any run on the keeper, with its staged copies, cached accounts and loops, ends in the store that the state machine reaches; in a run that keeps the reservation invariant no handler and no block ever reports an inconsistency |
| `Chain.DeliverEvent` | x/billing/keeper/msg_server.go:43-1474 | Every handler and the end blocker, called on the keeper, give the store of the corresponding ledger step; a refused message changes nothing; from a consistent store nothing is reported |
| `Chain.DeliverKeepsKeyed` | x/billing/keeper/keeper.go:697-712 | Every event leaves records filed under their keys and the credit-address index the inverse of the account map, even a creation that meets an identifier in use |
| `Chain.Restart` | x/billing/keeper/keeper.go:290-390 | Exporting a keeper and importing into a new one gives a keeper with the same store, the indexes that are not exported included |
| `BillingKeeper.Keeper.SetLease` | x/billing/keeper/keeper.go:425-451 | Atomic: the lease, its SKU entries and the reconciled domain index, or the same refusal with nothing changed |
| `BillingKeeper.Keeper.ReconcileCustomDomainIndex` | x/billing/keeper/keeper.go:477-569 | Both loops, visiting the map keys in an arbitrary order, produce the order-free reconciliation or its refusal |
| `BillingKeeper.Keeper.ReleaseClaims` | x/billing/keeper/keeper.go:509-531 | For every visiting order exactly the entries still owned by this lease and service, and no longer claimed, are removed |
| `BillingKeeper.Keeper.InstallClaims` | x/billing/keeper/keeper.go:533-566 | For every visiting order it succeeds if and only if the new domains are pairwise different and free or already this item's |
| `BillingKeeper.Keeper.SetCreditAccount` | x/billing/keeper/keeper.go:697-712 | Keeps the credit-address index the exact inverse of the account map and every record under its key |
| `BillingKeeper.Keeper.GetCreditBalancesForDenoms` | x/billing/keeper/keeper.go:783-796 | Each denomination of the tenant's credit as often as it is listed; the credit restricted to the list when it has no repetition |
| `BillingKeeper.Keeper.PerformSettlementCore` | x/billing/keeper/settlement.go:93-188 | Transfers per denomination the smaller of accrual and credit; overflow is refused or, when silent, takes all credit in the lease's denominations; a refusal moves nothing |
| `BillingKeeper.Keeper.CalculateWithdrawableForLease` | x/billing/keeper/keeper.go:861-923 | The loop computes the per-denomination minimum of accrual and credit, nothing on overflow or without a gap |
| `BillingKeeper.Keeper.ShouldAutoCloseLease` | x/billing/keeper/keeper.go:940-1017 | Closes exactly when overflow occurs or some accrued amount reaches the credit, or at zero gap when some denomination has none; refuses a settlement time in the future |
| `BillingKeeper.Keeper.AutoCloseLease` | x/billing/keeper/keeper.go:1028-1056 | Settles silently, closes, decrements and releases with the given minimum duration as one step of the ledger, with the same error precedence; nothing is reported for a stored active lease of a consistent store |
| `BillingKeeper.Keeper.ReleaseLeaseReservation` | x/billing/keeper/keeper.go:1090-1107 | Subtracts the lease's reservation clamped at zero, and reports underflow exactly when the reservation is not covered |
| `BillingKeeper.Keeper.ExpirePendingLease` | x/billing/keeper/keeper.go:1263-1332 | Expires a pending lease with its account update, or changes nothing; nothing is reported for a stored lease of a consistent store |
| `BillingKeeper.Keeper.CollectOverdue` | x/billing/keeper/keeper.go:1365-1400 | The capped scan of all pending leases collects the first hundred overdue ones in identifier order, each pending for more nanoseconds than a billion times the timeout |
| `BillingKeeper.Keeper.EndBlocker` | x/billing/keeper/keeper.go:1338-1438 | Collect-then-process equals the ledger's end of block; a lease that fails is passed over; from a consistent store nothing is reported |
| `BillingKeeper.FindLeaseItemByServiceName` | x/billing/keeper/custom_domain.go:84-114 | The counting loop finds the unique item with the name, or tells none from several |
| `BillingKeeper.Keeper.SetItemCustomDomain` | x/billing/keeper/custom_domain.go:125-238 | Same authorisation, normalisation, validity, reserved-suffix, uniqueness and idempotence branches as the ledger step, same store or same refusal |
| `BillingKeeper.Keeper.GetLeaseByCustomDomain` | x/billing/keeper/custom_domain.go:56-70 | Follows the index entry of the normalised domain; fails only on a dangling entry. With an exact index none dangles: it finds the holder if and only if there is one |
| `BillingKeeper.Keeper.InitGenesis` | x/billing/keeper/keeper.go:290-352 | The import loops equal the ledger's import, with the same refusals; after a refusal nothing or a prefix of the leases has been written |
| `BillingKeeper.Keeper.ExportGenesis` | x/billing/keeper/keeper.go:355-390 | Lists every lease once in identifier order and every account once |
| `BillingKeeper.ValidateWithBlockTime` | x/billing/types/genesis.go:289-325 | Accepts exactly the lease lists without a timestamp in the future |
| `Messages.ValidateBatchLeaseUUIDs` | x/billing/types/msgs.go:235-259 | Accepts exactly 1 to 100 valid, pairwise different identifiers |
| `Messages.ValidateLeaseItems` | x/billing/types/msgs.go:54-114 | Both uniqueness modes, all-or-nothing naming and the order of the errors |
| `Messages.ValidateParams` | x/billing/types/params.go:76-146 | Accepts exactly the parameters within bounds, without duplicates, with well-formed suffixes |
| `Batches.StagedMove` | x/billing/keeper/msg_server.go:1181-1212 | Writing a lease to the staged store and keeping its account in memory stands for the plain one-lease step |
| `Batches.StagingStep` | x/billing/keeper/msg_server.go:1181-1215 | After every lease of a batch the staged store overlaid with the accounts in memory is the plain fold so far; a refused write refuses the whole batch |
| `Messages.MsgServer.PersistAccounts` | x/billing/keeper/msg_server.go:579-585 | Writing the accounts back in tenant order yields the overlaid store |
| `Messages.MsgServer.ValidatePendingLeaseBatch` | x/billing/keeper/msg_server.go:1076-1122 | Same refusal as the ledger's check, or the stored leases with each tenant's account fetched once |
| `Messages.MsgServer.AcknowledgeLease` | x/billing/keeper/msg_server.go:1148-1246 | Refines the fold of acknowledgements: same store, or same refusal with nothing changed |
| `Messages.MsgServer.RejectLease` | x/billing/keeper/msg_server.go:1251-1360 | Refines the fold of rejections: same store, or same refusal with nothing changed |
| `Messages.MsgServer.CancelLease` | x/billing/keeper/msg_server.go:1365-1474 | Refines the fold of rejections by the tenant, with a single account in memory |
| `Messages.MsgServer.ValidateCloseBatch` | x/billing/keeper/msg_server.go:383-475 | Same refusal as the ledger's check of state, authorisation and one role for the batch; provider lookups are remembered |
| `Messages.MsgServer.CloseLease` | x/billing/keeper/msg_server.go:369-626 | Refines the fold of closings; the reported total is the total of the payments |
| `Messages.MsgServer.WithdrawFromLeases` | x/billing/keeper/msg_server.go:645-814 | Refines the fold of withdrawals; reports the total, the payout address and the number of leases settled |
| `Messages.MsgServer.WithdrawFromProvider` | x/billing/keeper/msg_server.go:818-1015 | Refines the lenient sweep over active then closed leases; `has more` holds exactly when the limit left leases out |
| `Messages.MsgServer.Withdraw` | x/billing/keeper/msg_server.go:631-641 | The two modes exclude each other and are dispatched accordingly |
| `Messages.MsgServer.CreateLeaseInternal` | x/billing/keeper/msg_server.go:131-301 | Same admission, pricing, provider, credit and write steps as the ledger; the identifier is the generated one and valid |
| `Messages.MsgServer.CreateLease` | x/billing/keeper/msg_server.go:321-336 | Refines the ledger step; a refusal rolls everything back, the sequence number included |
| `Messages.MsgServer.CreateLeaseForTenant` | x/billing/keeper/msg_server.go:340-364 | The same for the authority and the allowed list |
| `Messages.MsgServer.FundCredit` | x/billing/keeper/msg_server.go:43-117 | Transfer and account creation together or not at all; reports the new balance, which is the old one and the amount |
| `Messages.MsgServer.SetItemCustomDomain` | x/billing/keeper/msg_server.go:1041-1049 | Message checks, then the keeper's edit |
| `Messages.MsgServer.UpdateParams` | x/billing/keeper/msg_server.go:1018-1037 | Valid parameters from the authority are stored, anything else is refused |
| `Access.HandleIff` | x/billing/keeper/msg_server.go:43-1474 | Whether an event is accepted, for every event and every store with the invariants, from the sender, the leases, the catalog and the balances alone: accepted only if permitted, and permitted means accepted (for a close, with the providers of the leases in the catalog) |
| `Access.AnswerIff` | x/billing/keeper/msg_server.go:1076-1146 | Acknowledging and rejecting are accepted if and only if the list is well formed, all leases are pending and of one provider, and the sender is that provider's address or the authority; a rejection also needs a reason of at most 256 characters |
| `Access.CancelIff` | x/billing/keeper/msg_server.go:1365-1420 | Cancelling is accepted if and only if all listed leases are pending and belong to the sender |
| `Access.CloseIff` | x/billing/keeper/msg_server.go:383-475 | Closing needs active leases and one role for all of them: the authority, the tenant of all, or of none the tenant and of all the provider |
| `Access.WithdrawIff` | x/billing/keeper/msg_server.go:645-758 | Withdrawing is accepted if and only if the sender is the one provider of the leases or the authority, and some active lease has run a whole second since its last settlement, or none at all without credit left for one of its prices |
| `Access.SweepIff` | x/billing/keeper/msg_server.go:818-860 | A sweep is accepted if and only if the sender is the provider or the authority and the limit is at most 100 |
| `Access.FundIff` | x/billing/keeper/msg_server.go:43-66 | Funding is accepted if and only if the amount is positive, the denomination valid and the sender has it |
| `Access.ParamsIff` | x/billing/keeper/msg_server.go:1018-1036 | An update is accepted if and only if the authority sends it and every bound and list is in order, the bounds written as numbers |
| `Access.CreateIff` | x/billing/keeper/msg_server.go:131-301 | A creation is accepted if and only if the order is well formed, its SKUs are offered by one active provider at prices that divide exactly, the tenant's true numbers of active and pending leases are below both limits, and the balance covers what is reserved and the daily price for the minimum duration, denomination by denomination |
| `Access.CreateForIff` | x/billing/keeper/msg_server.go:340-364 | The same on a tenant's behalf, if and only if the sender is the authority or on the allowed list |
| `Access.SetDomainIff` | x/billing/keeper/msg_server.go:1041-1049 | The message is accepted if and only if the edit is permitted and the domain in its normal form, and then stores it |
| `DomainEdits.EditIff` | x/billing/keeper/custom_domain.go:125-238 | An edit is accepted if and only if the sender is the tenant, the authority or on the allowed list, the lease is live, exactly one item has the service name, and the domain is empty or valid, not reserved and carried by no other live item; then exactly that item carries the normalised domain and the index leads from the domain to the item, or after clearing nothing leads there |
| `Provenance.HandleDoes` | x/billing/keeper/msg_server.go:43-1474 | What every accepted event does to the whole store: who pays whom by funding, the lease a creation writes, what answers, settlements, edits, updates and blocks make of every lease and every tenant's credit, and that nothing else changes |
| `Effects.FundDoes` | x/billing/keeper/msg_server.go:49-94 | The coin leaves the sender for the tenant's credit address and no other balance moves; the tenant has its old account, or one without leases and reservations |
| `Effects.CreateDoes` | x/billing/keeper/msg_server.go:181-291 | The new lease is filed under the generated identifier, pending, as ordered, at the catalog's prices, settled up to now |
| `Effects.BatchAnswers` | x/billing/keeper/msg_server.go:1181-1215 | Every listed lease becomes active with billing from now, or rejected with the reason; no other lease changes and no money moves |
| `Effects.BatchSettles` | x/billing/keeper/msg_server.go:495-560 | What a close, a withdrawal or a sweep of any length makes of every lease, computed from leases and balances before it: closed with the given reason, or as exhausted if and only if the charges before it leave too little, settled up to now after a whole second, or as it was |
| `Effects.SweptIff` | x/billing/keeper/msg_server.go:836-880 | A sweep takes the provider's active leases in identifier order, then its closed ones, up to the limit or to fifty |
| `Effects.StoreIsDetermined` | x/billing/keeper/keeper.go:425-712 | Leases, accounts present, bank, parameters and sequence number determine a consistent store: counters, reservations and all indexes follow |
| `Provenance.DeliverIsWarranted` | x/billing/keeper/msg_server.go:43-1474 | No event removes a lease; a new lease was ordered by its tenant, the authority or the allowed list; each change of a lease comes from an event and a sender that may make it; only the authority changes parameters |
| `Provenance.RunIsWarranted` | x/billing/keeper/msg_server.go:43-1474 | The same at every step of every run |
| `Provenance.StateHasCause` | x/billing/keeper/msg_server.go:43-1474 | A lease in a state it was not in at the start of a run was brought there by an event of the run whose sender may do so, at the time the lease records: active only if its provider or the authority acknowledged it |
| `Provenance.CreditFallsOnlyBySettlement` | x/billing/keeper/msg_server.go:495-588 | A tenant's credit falls only when a permitted close, withdrawal or sweep settles one of its leases, or by activity of other modules |
| `Provenance.NoExpiryBeforeTimeout` | x/billing/keeper/keeper.go:1338-1400 | Over every run with fixed parameters no lease expires before it has been pending for longer than the timeout, in nanoseconds |
| `Overview.ExpiryTakesAMinute` | x/billing/keeper/keeper.go:1338-1400 | Whatever valid parameters are set in between, no lease expires within a minute |
| `Provenance.PriceHoldsForLife` | x/billing/keeper/msg_server.go:181-291 | A lease keeps the catalog's prices of its creation over every later run |
| `Pricing.UnitCostsBasePrice` | x/sku/types/unit.go:40-76 | An item accrues its base price times its quantity in 3,600,000,000,000 nanoseconds if priced per hour, and in 86,400,000,000,000 if priced per day |
| `Pricing.DaysCostCatalogPrice` | x/billing/keeper/accrual.go:38-84 | Settling a lease after so many days takes that many times the catalog's daily price of the order from the credit, or all there is |
| `Pricing.ChargeBySecond` | x/billing/keeper/keeper.go:861-905 | An active lease is charged up to now and a closed one up to its closing time, rate times whole seconds of 1,000,000,000 nanoseconds |
| `Pricing.AccruedBySecond` | x/billing/keeper/accrual.go:38-84 | Accrual is refused if and only if the lease has items and the gap exceeds 3,153,600,000 seconds; below, it is rate times whole seconds |
| `Success.PendingChecksDecide` | x/billing/keeper/msg_server.go:1148-1246 | In a store with exact indexes acknowledging and rejecting succeed if and only if the first phase accepts: the second phase cannot fail |
| `Success.CancelChecksDecide` | x/billing/keeper/msg_server.go:1365-1474 | The same for cancelling |
| `Success.CloseChecksDecide` | x/billing/keeper/msg_server.go:369-626 | The same for closing, when the leases' providers exist |
| `Success.BatchSucceeds` | x/billing/keeper/msg_server.go:495-588 | Distinct leases that passed the checks are processed without failure, whatever happens to the balances in between |
| `Success.OrderDecidesNothing` | x/billing/keeper/msg_server.go:495-588 | Every order of a batch of closings, withdrawals or swept leases succeeds and leaves every credit account with the same balance |
| `Success.ChargedBatchDraws` | x/billing/keeper/msg_server.go:885-996 | The provider-wide sweep, like the other two, succeeds on known providers and draws per tenant and denomination the minimum of the sum of charges and the starting balance |
| `DomainIndex.OrderIsIrrelevant` | x/billing/keeper/keeper.go:484-569 | Every pair of iteration orders of the two maps gives the same refusal or the same index |
| `DomainIndex.ReconcileExact` | x/billing/keeper/keeper.go:425-569 | On an exact index a write succeeds if and only if its domains are pairwise different and held by no other lease, and then the index is exact again; so rewriting a terminal lease cannot remove another lease's claim |
| `DomainIndex.KeepingDomainsSucceeds` | x/billing/keeper/keeper.go:477-569 | A write that ends the lease or leaves its domains alone is never refused |
| `DomainIndex.ExactIsUnique` | x/billing/keeper/keeper.go:477-569 | The leases determine the index |
| `Structure.IndexIsInverseOfItems` | x/billing/keeper/keeper.go:425-569 | In every reachable store a domain points at a lease and service if and only if that lease is pending or active and its item of that name carries the domain |
| `Structure.DomainsAreUnique` | x/billing/keeper/keeper.go:538-566 | No two items of live leases share a domain |
| `Structure.RunIsOk` | x/billing/types/genesis.go:36-170 | Every lease record in every reachable store is well formed in the sense genesis validation checks |
| `Reservations.GetAvailableCredit` | x/billing/types/credit.go:63-78 | Balance less reservations, never below zero, per denomination |
| `Reservations.SubtractReservation` | x/billing/types/credit.go:88-103 | Clamped difference per denomination |
| `Reservations.CalculateLeaseReservation` | x/billing/types/credit.go:107-131 | Item rates summed per denomination, times the duration |
| `Reservations.CalculateLeaseReservationFromRates` | x/billing/types/credit.go:135-147 | Rates times the duration: the same amount as from the items |
| `Reservations.CheckReservationRelease` | x/billing/types/credit.go:167-179 | Reports exactly the overdrawn denominations with the missing amounts; empty if and only if covered |
| `Accrual.SaturationIsHarmless` | x/billing/keeper/accrual.go:38-65 | The 64-bit saturation of time differences never hides an overflow and never changes a billable gap |
| `Accrual.CalculateAccruedAmount` | x/billing/keeper/accrual.go:38-65 | Whole seconds truncated toward zero, refused exactly beyond the maximum duration |
| `Accrual.CalculateTotalAccruedForLease` | x/billing/keeper/accrual.go:70-84 | Rates times seconds per denomination; refused exactly when the lease has items and the gap is too long |
| `Accrual.LeaseItemDenoms` | x/billing/keeper/settlement.go:23-33 | Every denomination of the items, each once |
| `Accrual.CalculateTransferAmounts` | x/billing/keeper/settlement.go:50-63 | Per denomination the smaller amount |
| `Accrual.PricePerSecond` | x/sku/types/unit.go:40-76 | Defined if and only if the price is positive and divides exactly by 3600 for an hourly or 86400 for a daily SKU; times that number of seconds it is the base price |
| `Payments.SettleTransfers` | x/billing/keeper/settlement.go:93-188 | Transfer is the minimum of charge and credit; the charge is the accrual, or all credit on overflow |
| `Payments.BatchIsAccounted` | x/billing/keeper/msg_server.go:495-588 | Every account moves by exactly what the payments list for it, and the total supply of every denomination is unchanged, for every kind of batch |
| `Payments.BatchDraws` | x/billing/keeper/msg_server.go:495-560 | A closing or withdrawal batch without overflow draws per tenant and denomination the minimum of the sum of charges and the starting balance |
| `Payments.BatchOrderIsIrrelevant` | x/billing/keeper/msg_server.go:495-560 | Two orders of the same batch leave the same credit balances |
| `Conservation.TotalIsMoved` | x/billing/keeper/msg_server.go:495-588 | With payouts outside the credit accounts, the total of a batch is exactly what the credit addresses of its tenants lost together and what the payout addresses of its providers gained together, per denomination, and nobody else's balance moved |
| `Conservation.MessageTotalIsMoved` | x/billing/keeper/msg_server.go:694-758 | The same for the totals that successful close, withdraw and sweep messages report |
| `Conservation.BatchReceipts` | x/billing/keeper/msg_server.go:694-750 | Every payment of a batch is drawn from the tenant of one of its leases and paid to that lease's provider |
| `Payments.NoShortfallWithoutClosure` | x/billing/keeper/keeper.go:940-1056 | A settlement that leaves a lease active pays the whole accrual and leaves a positive balance in every accrued denomination |
| `Billing.WholeLifeBound` | x/billing/keeper/accrual.go:38-84 | Over any run from any good store with ordered timestamps, for each lease on its own with gaps within the limit: it pays per denomination at most rate times the whole seconds since its acknowledgement, or since its last settlement before the run if it was already running; never short, at least that less one second per further settlement; nothing if it never became active |
| `Billing.RunBills` | x/billing/keeper/msg_server.go:694-750 | Any history of payments in step with every lease's last settlement stays so when a run extends it: no second is charged twice |
| `Guarantees.AdmissionNeverOverbooks` | x/billing/keeper/msg_server.go:227-291 | Right after a creation the balance covers the reservations of all live leases of the tenant in every denomination the new lease uses |
| `Guarantees.RunStaysBounded` | x/billing/keeper/msg_server.go:155-170 | Over every run whose accepted updates do not lower the sum of the two limits, live leases never exceed that sum less one, although acknowledging checks no limit |
| `Guarantees.QueryAgreesWithWithdrawal` | x/billing/keeper/keeper.go:861-923 | A successful single-lease withdrawal pays what the query reports if and only if the gap is within the limit or there is no credit |
| `Counterexamples.BeyondTheLimitTheyDiffer` | x/billing/keeper/settlement.go:104-140 | For every active lease beyond the limit with credit left, the provider's withdrawal succeeds and does not pay what the query reports |
| `Counterexamples.QueryDisagreesAfterACentury` | x/billing/keeper/keeper.go:882-891 | Such a store: an accepted genesis whose lease is withdrawn from after 101 years |
| `Overrun.RunBackedIff` | x/billing/types/credit.go:5-7 | The exact condition over whole runs: with nothing but settlement taking from the credit address and gaps within the limit, the balance covers rate times uncharged reserved seconds of all live leases of the tenant at every point if and only if every accepted close, withdrawal or sweep fits, which the store before it decides |
| `Overrun.BatchBackedIff` | x/billing/keeper/msg_server.go:495-588 | For one batch: the promises are covered afterwards if and only if the credit left by the summed charges, together with what the batch frees by charging reserved seconds and by closings foreseen from the starting balances, covers what was promised before |
| `Overrun.OverrunMustFit` | x/billing/keeper/msg_server.go:694-750 | For a lease that stays open: if and only if the seconds charged beyond its reserved ones fit into the credit that nothing was promised |
| `MinimumDuration.RunKeepsBacked` | x/billing/types/credit.go:5-7 | A condition on the leases alone: while every lease of a tenant has been charged at most its reserved seconds, the balance covers the promises |
| `MinimumDuration.EachLeaseIsBacked` | x/billing/types/credit.go:5-7 | Each of these leases can then be paid for the rest of its reserved seconds |
| `Counterexamples.OverrunDrainsOthers` | x/billing/types/credit.go:5-7 | Without that condition the promise fails: in a store imported from an accepted genesis one lease, withdrawn from after its own minimum, takes credit reserved for a lease that has not been charged at all |
| `Lifetime.RunPersists` | x/billing/keeper/msg_server.go:1181-1196 | Over any run terms never change, states only move forward, terminal leases are never modified, and creation, acknowledgement, settlement and block time stay in order; a closed lease is settled up to its closing time |
| `Lifetime.TerminalIsFrozen` | x/billing/keeper/msg_server.go:694-750 | No step of any batch touches a terminal lease |
| `Expiry.EndBlockExpires` | x/billing/keeper/keeper.go:1338-1438 | A block expires exactly the first hundred leases, in identifier order, that have been pending for longer than the timeout, or all if fewer, moves no money and changes no other lease |
| `Expiry.BlockExpiresIff` | x/billing/keeper/keeper.go:1338-1438 | A lease expires at the end of a block if and only if it has been pending for more nanoseconds than a billion times the timeout and fewer than a hundred such leases have smaller identifiers; every other lease stays as it is |
| `Expiry.OverdueLeaseExpires` | x/billing/keeper/keeper.go:1338-1438 | With fixed parameters and block times that differ in milliseconds, an overdue lease with k overdue leases ahead leaves the pending state within k/100 + 1 blocks, whatever else happens |
| `Expiry.BlockMakesProgress` | x/billing/keeper/keeper.go:1338-1438 | A block expires the lease or removes a hundred leases from in front of it |
| `Genesis.ImportIff` | x/billing/keeper/keeper.go:290-352 | A valid genesis is imported if and only if no timestamp is in the future, the catalog knows the provider and, from it, the SKUs of every lease, and no two live items carry the same domain |
| `Genesis.RoundTrip` | x/billing/keeper/keeper.go:290-390 | Importing the export rebuilds the store exactly, indexes included, when the SKU module still knows the references and block time is not earlier |
| `Genesis.ExportPassesCrossChecks` | x/billing/types/genesis.go:204-281 | Every export of a store with the invariants passes the reservation, counter and sequence checks |
| `Genesis.ExportIsValidIff` | x/billing/types/genesis.go:31-284 | The export of a reachable store is valid if and only if no stored domain is covered by a reserved suffix |
| `Counterexamples.LateSuffixInvalidatesExport` | x/billing/types/genesis.go:123-135 | Any stored domain can be reserved afterwards, and then no export is accepted |
| `Genesis.ValidGenesisIsGood` | x/billing/keeper/keeper.go:290-352 | A genesis that validation accepts starts the chain in a store with the index, counter and reservation invariants, well-formed records and valid parameters |
| `GenesisValidation.CalculateExpectedReservationsByTenant` | x/billing/types/credit.go:184-200 | For every tenant and denomination the sum over its live leases |
| `GenesisValidation.CrossCheck` | x/billing/types/genesis.go:204-281 | The tallying loops accept exactly the states whose accounts agree with the leases, that leave no reserved tenant without an account, and whose sequence bounds the leases |
| `GenesisValidation.ValidateLeaseRecord` | x/billing/types/genesis.go:38-170 | Accepts exactly the well-formed records, denominations of the locked prices included |
| `GenesisValidation.Validate` | x/billing/types/genesis.go:31-284 | The whole validation accepts exactly the valid genesis states |
| `UuidV7.GenerateUUIDv7WithEntropy` | pkg/uuid/uuid.go:73-112 | Fills the 16 bytes as laid out in section 5.7 of RFC 9562 and formats them; the result is always valid |
| `UuidV7.HashEntropy` | pkg/uuid/uuid.go:130-169 | The four loops compute the FNV-1a hash of one byte string, header hash, chain, module and big-endian sequence end to end |
| `UuidV7.ValidIffFormatted` | pkg/uuid/uuid.go:172-185 | A string matches the pattern if and only if sixteen bytes with version 7 and variant bits 10 spell it |
| `UuidV7.IdentifierTells` | pkg/uuid/uuid.go:73-112 | Read back, an identifier gives the creation time in nanoseconds divided by a million and the sequence number modulo 4096 |
| `UuidV7.GeneratedIsValid` | pkg/uuid/uuid.go:172-185 | Every generated string matches the UUIDv7 pattern |
| `UuidV7.GeneratedIsInjective` | pkg/uuid/uuid.go:73-112 | Equal identifiers mean equal milliseconds and equal sequence numbers modulo 4096, whatever the hash |
| `UuidV7.GeneratedIsOrdered` | pkg/uuid/uuid.go:73-112 | String order follows millisecond order |
| `UuidV7.RunIsCollisionFree` | pkg/uuid/uuid.go:73-112 | With at most 4096 creations per millisecond no two creations share an identifier, independent of the hash |
| `Names.IsValidDNSLabel` | x/billing/types/msgs.go:26-45 | Accepts exactly the labels of section 2.1 of RFC 1123 in lower case |
| `Names.IsValidFQDN` | x/billing/types/msgs.go:301-350 | Accepts exactly the names of 1 to 253 characters with at least two valid labels and a last label that is not a number |
| `Names.EarlyChecksAreImplied` | x/billing/types/msgs.go:301-350 | The scheme, character and dot checks exclude nothing that the label checks accept |
| `Names.NormalizeIs` | x/billing/keeper/custom_domain.go:56-64 | Normalising drops the white space at both ends and lower-cases what is between |
| `Names.MatchesReservedSuffix` | x/billing/types/msgs.go:363-378 | True exactly when some entry hits, malformed entries included |
| `Names.ReservedIsLabelTail` | x/billing/types/msgs.go:363-378 | On validated entries, true if and only if the entry's labels are a tail of the domain's labels |
| `Pagination.PaginateStringIndex` | pkg/pagination/pagination.go:54-152 | The loop returns the page that the filtered index determines, for every cursor, offset, limit and filter; orphaned entries are skipped, and it fails if and only if a lookup breaks before the page and its next key are complete, or anywhere after the cursor when the total is counted |
| `Pagination.PaginateSkuIndex` | x/billing/keeper/querier.go:576-669 | The near-copy returns the same page and fails on the same lookups |
| `Pagination.PagesCoverTheIndex` | pkg/pagination/pagination.go:54-152 | Following the next keys from any first request, offset included, ends and lists the filtered index exactly once and in order |
| `Pagination.CountingLooksFurther` | pkg/pagination/pagination.go:54-152 | A call that succeeds while counting succeeds without counting, on the same page with the same next key |
| `Pagination.NextKeyContinues` | pkg/pagination/pagination.go:54-152 | The next key names the first entry left out, and the index from there on holds exactly the rest |

## Left out

- Addresses: Bech32 text, SHA-256 derivation and malformed address errors. An address is a value, and the credit address of a tenant is an injective constructor, never equal to its own tenant.
- The SKU module's own state changes: it is a read-only catalog per block, with well-formed provider identifiers, price denominations and payout addresses.
- Bank module restrictions (blocked addresses, send switches), account registration and gas: a transfer fails only for lack of funds.
- Secondary indexes of the lease map (tenant, provider, state and their pairs): the collections library keeps them, so scans are sorted selections from the lease map.
- Storage and decoding errors, which in the model do not occur; the paginators keep a failing lookup.
- Events, logging, error texts, role labels and sanitised reasons.
- 256-bit panics of big integers and wrap-around of 64-bit counters and sequence numbers.
- Normalize: trims all Unicode white space but lower-cases ASCII letters only, because stored domains are ASCII; other Unicode case mappings are not modelled.
- Access.HandleIff: for closing a lease whose provider is not in the catalog the condition is necessary but not shown sufficient; the SKU module removes no provider.
- GenesisValidation.Validate: says which states are accepted and not which error is reported; a closing time equal to Go's zero time is not told apart from other times.
- BillingKeeper.Keeper.ExportGenesis: the order of credit accounts is unspecified, because it is the byte order of addresses; the import does not depend on it.
- UuidV7.HashEntropy: collision resistance of FNV-1a is not stated; uniqueness does not need it.
- Pagination over descending order and prefix matching of the iterator: the index is given as a sequence of keys.
- CreditEstimate, provider-wide withdrawable queries, list queries by tenant, provider and state, and the counting fallbacks for tenants without an account: read-only loops over the same data.
- Migrate1to2, which does nothing.
- x/manifest, x/sku, ante handlers, message filters, application wiring, command line and simulation.
