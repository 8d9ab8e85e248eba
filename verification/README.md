# NimConnect backend: a verified model

This project models, in Dafny, the parts of NimConnect that decide over money and names: the escrow of the handle
marketplace, the on-chain handle registry with its synchroniser and its TypeScript twin, the Nimiq address codec, the
inbox store and the scoped-authorization store. `dafny verify dfyconfig.toml` checks all of it.

## How it is built

**The marketplace.** `Trades` and `MarketplaceTables` hold the rows, the transition table and what each database
transaction does to the tables. `MarketplaceStore.Store` is the store over mutable fields, each method proved against its
table function. `EscrowSystem` is the protocol: request handlers, the deposit watcher, the expiry sweep, the ownership
watcher and the settlement worker are tasks whose steps are the single store, signer and ledger calls; any number of them
interleave, are delayed, or crash between two steps, while blocks arrive, are reorganised and become final, and while
registry sweeps fold what is on the chain. `EscrowInvariant` is the inductive invariant, `EscrowPreservation`,
`EscrowSteps`, `EscrowWorkers` and `EscrowRuns` prove that every event keeps it, and `EscrowSafety`, `EscrowAccounts`,
`EscrowHistory`, `EscrowRecords` (where a trade's columns come from), `EscrowFunding` (what stays on the chain) and
`EscrowClosing` (which trades can still end) draw the consequences for every run. `EscrowWitness` holds the runs that show where a property fails.
`SettlementWorkers`, `OwnershipWatching` and `EscrowWatching` are the workers and watchers as the code runs them, over the
mutable store, ledger and signer; `SettlementRefinement`, `OwnershipRefinement` and `DepositRefinement` prove that what
they do, whole sweeps included, is a run of the protocol, so the safety results apply to them. `AdminSummaries` is the admin
page's pass over the trades, `TradeTransactions` relates what the handlers accept to what the registry makes of it.

**The registry.** `HandleFold` is the fold of a history into owners, a definition of holding a handle that does not
mention the fold, and the proof that the two agree. `HandleRegistries`, `HistoryPaging` and `HandleSyncing` are the
registry object, the paged fetch and the sweep; `RegistryRefinement` makes a sweep that goes through an event of the
escrow protocol. `ProfileClient` is the TypeScript port. `ClaimCodec` reads the wire forms.

**The rest.** `AddressCodec`, `AddressCheck` and `Addresses` are the base-32 encoder (the bit grouping of section 6 of
RFC 4648), the check (the MOD 97-10 system of ISO/IEC 7064) and address validity. `InboxStores` is the inbox with each SQL
statement a step. `ScopedAuth` is the authorization store, `AuthSessions` its session handler interleaved.

## What the proofs found

- A settled or refunded trade leaves its listing reserved for good: nothing ever sets another status, so its handle can
  never be listed again, although the store's own relisting rule counts such trades as closed
  (`EscrowSafety.ListedOnceEver`, `EscrowSafety.ClosedTradeBlocksRelisting`). Every sale has a run that ends this way, the
  buyer owning a handle that cannot be sold again (`EscrowWitness.SoldHandleIsBlocked`).
- The deposit watcher funds a trade on the height it recorded and does not look at the chain again. A deposit that a
  reorganisation removed before its height became final still funds the trade (`EscrowWitness.FundedWithoutADeposit`). The
  step leaves the trade's money in escrow in every continuation exactly if, just before it, a transaction with the
  recorded hash is on the chain in a final block (`EscrowFunding.FundingIsBackedIff`).
- The ownership watcher likewise acts on the registry as last swept: a seller can be paid on a claim that a reorganisation
  removed (`EscrowWitness.PaidWithoutAClaim`). A claim has the handle in every continuation exactly if the final part of
  the chain gives it (`EscrowFunding.OwnershipIsBackedIff`).
- Nothing but the ownership sweep calls the settlement worker, and the sweep looks at trades before settlement only. A
  crash or a failed store call between the last hop and the mark leaves a trade pending for good, with the owner decided,
  the fee fitting and no payment attempted; every sale has such a run (`EscrowWitness.UnmarkedIsStranded`). So does one
  between the mark and the last step, or before a failed trade comes to its refund. A trade past the chain can still close
  exactly if a running task leads there: a worker that has marked its attempt, or, with the attempt unmarked and a payout's
  fee fitting, a task of the trade that comes to the mark (`EscrowClosing.PendingClosesIff`).
- A release and a claim that the handlers accept need not hand over the handle: a third party's claim between the two takes
  it (`TradeTransactions.BuyerIsForestalled`). They do exactly if the seller signed a release that counts and no claim but
  the buyer's has the handle by then (`TradeTransactions.HandoverWorksIff`).
- The handlers look at the sender of a release or claim, the registry behind it: a release through a swap contract counts
  for the registry and is refused by the handler (`TradeTransactions.SwapReleaseIsRefused`); the two agree exactly on
  transactions not made by a swap contract, or by one whose creator is unknown or itself (`TradeTransactions.ChecksAgreeIff`).
- Checking a session's scopes and inserting it are two statements. An app that drops a scope in between does not stop the
  session (`AuthSessions.ConsentCanBeOvertaken`); consent is kept exactly if no app change overtakes an insert
  (`AuthSessions.ConsentIffTimely`).
- A zero byte ends the handle in releases as well as in claims, although the source's comment says claims only; the model
  follows the code.

## Model

| member | source | states |
|---|---|---|
| `EscrowSafety.SignedAtMostOnce` | backend/marketplace_settlement.go:23-102 | in every run of interleaved, crashing tasks the signer is invoked at most once per trade, payouts and refunds counted together |
| `EscrowSafety.SignedOnlyAgainstADeposit` | backend/marketplace_settlement.go:46-50 | every invocation is for a trade whose recorded deposit was once seen on the chain, at a height now final, from the buyer and of exactly the price; a payout sends price minus fee to the seller after the registry, folded from the chain, held the buyer's claim of the handle at a height now final, a refund the price to the buyer after it held a stranger's |
| `EscrowSafety.DepositFundsOneTrade` | backend/marketplace_escrow_watcher.go:71-91 | no chain transaction is the deposit of two trades |
| `EscrowSafety.ListingsAreExclusive` | backend/marketplace_store.go:188-296 | in every run a handle has at most one unfinished trade, an active listing none, an unfinished trade's listing is reserved, and no buyer, however spelled, holds more than three unpaid reservations |
| `EscrowSafety.ListedOnceEver` | backend/marketplace_store.go:107-173 | a handle can be listed exactly if nobody ever asked to list it before |
| `EscrowSafety.ClosedTradeBlocksRelisting` | backend/marketplace_store.go:98-147 | with a settled or refunded trade, and no open one, listing the handle again is refused as reserved |
| `EscrowAccounts.DepositsAreConserved` | backend/marketplace_settlement.go:46-101 | in every run: matched deposits = payouts + refunds asked of the signer + fees kept + prices not yet disbursed |
| `EscrowAccounts.ThreeBooksAgree` | backend/marketplace_admin.go:16-35 | in every run deposits + ledger balance = expected balance + what is already booked for trades still held; without stuck trades that last term is zero |
| `EscrowAccounts.LedgerOfTrade` | backend/marketplace_ledger.go:39-59 | in every run a trade's ledger lines sum to between minus its price and zero, to minus its price once settled or refunded, and to zero without a deposit |
| `EscrowAccounts.LinesOfClosedTrade` | backend/marketplace_settlement.go:46-101 | in every run a settled trade has exactly two lines, of kind payout with minus what the signer was asked to send and the payout's hash, and of kind fee with minus the fee; a refunded one exactly one, of kind refund with minus the price and the refund's hash |
| `EscrowHistory.HistoryIsKept` | backend/marketplace.go:32-56 | from any state on: a trade with a deposit is never expired or canceled and keeps its deposit, a closed trade never changes, settling and refunding are one-way, attempts are marked once, every change raises the version, ledger and signer history only grow |
| `EscrowSafety.NonceAcceptedOnce` | backend/marketplace_store.go:87-96 | in every run a nonce is accepted exactly if no request has used it before |
| `EscrowRecords.TermsWereAsked` | backend/marketplace_store.go:188-261 | in every run a trade's seller, price and fee are those of a request that listed its handle, and its reference, buyer and deadline, half an hour on, those of the request that reserved it |
| `EscrowRecords.HashesWereSubmitted` | backend/marketplace_handlers.go:313-404 | in every run a recorded release was submitted for that trade, a recorded claim was too or was resolved by the registry for its handle, and the escrow address is the deployment's |
| `EscrowRecords.SubmissionIsRecorded` | backend/marketplace_store.go:357-387 | a submission that comes in time moves the row on with its hash, one that does not changes nothing; no other column moves |
| `EscrowFunding.FundingIsBackedIff` | backend/marketplace_escrow_watcher.go:93-100 | in every run, the step that funds a trade leaves a paying deposit on the chain in every continuation exactly if one with the recorded hash is there just before it, in whatever final block |
| `EscrowFunding.OwnershipIsBackedIff` | backend/marketplace_ownership_watcher.go:100-106 | in every run, a claim is the one that takes the handle in every continuation, whatever the sort, exactly if the final part of the chain makes it so |
| `EscrowWitness.FundedWithoutADeposit` | backend/marketplace_escrow_watcher.go:71-100 | every sale has a run that funds it with nothing on the chain |
| `EscrowWitness.PaidWithoutAClaim` | backend/marketplace_ownership_watcher.go:100-115 | every sale has a run that pays the seller on a claim to which nothing on the chain gives the handle |
| `EscrowWitness.SoldHandleIsBlocked` | backend/marketplace_store.go:98-147 | every sale has a run to settlement after which any listing of the handle is refused, though the buyer owns it on the chain |
| `EscrowClosing.PendingClosesIff` | backend/marketplace_ownership_watcher.go:98-128 | in every run, a trade in SETTLEMENT_PENDING, FAILED_AFTER_RELEASE or REFUND_PENDING can still close exactly if a running task leads there: a worker that has marked its attempt, or one of the trade's tasks that still comes to its mark, unmarked and with a fitting fee; else every continuation leaves it where it is |
| `EscrowWitness.UnmarkedIsStranded` | backend/marketplace_ownership_watcher.go:98-115 | every sale has a run that leaves it in SETTLEMENT_PENDING, unmarked and with a fitting fee, where no continuation closes it |
| `EscrowRuns.RunOk` | backend/marketplace_ownership_watcher.go:88-132 | every state of every run from an empty database satisfies the whole protocol invariant |
| `EscrowRuns.StepOk` | backend/marketplace_settlement.go:23-102 | any single step of any task, at any time, keeps the invariant |
| `OwnershipRefinement.DecidedTradesCanClose` | backend/marketplace_ownership_watcher.go:102-128 | while a trade is in one of the four states before settlement and the registry's claim of its handle is final: if its owner is the buyer, some continuation settles it if the fee fits; if neither party, some continuation refunds it |
| `OwnershipRefinement.HandledIsRun` | backend/marketplace_ownership_watcher.go:102-128 | what the watcher does with one trade is a run of the protocol |
| `OwnershipRefinement.SweepIsRun` | backend/marketplace_ownership_watcher.go:88-132 | the trades of a sweep dealt with one after the other, through or broken off, are a run of the protocol, in any state of the system |
| `SettlementRefinement.SettleIsRun` | backend/marketplace_settlement.go:23-66 | a whole call of Settle is the run of the task that makes it, in any state of the system |
| `SettlementRefinement.RefundIsRun` | backend/marketplace_settlement.go:68-102 | a whole call of Refund is the run of the task that makes it, in any state of the system |
| `SettlementWorkers.SettlementWorker.Settle` | backend/marketplace_settlement.go:23-66 | succeeds exactly for a settled trade, or a pending unmarked one whose fee fits and whose signing is answered; then the seller is sent price minus fee, booked as the payout with the answered hash, and the fee as the fee, and the trade is settled |
| `SettlementWorkers.SettlementWorker.Refund` | backend/marketplace_settlement.go:68-102 | succeeds exactly for a refunded trade, or a pending unmarked one whose signing is answered; then the buyer is sent the price, booked as a refund with the answered hash, and the trade is refunded |
| `OwnershipWatching.WalkChainTo` | backend/marketplace_ownership_watcher.go:29-51 | ends at the target with the mutation made on the last hop only, at the end of the chain when the target is behind, and changes nothing off the chain; terminates by chain distance |
| `OwnershipWatching.StageMoves` | backend/marketplace_ownership_watcher.go:39-50 | each hop of the walk is a legal transition and carries the mutation exactly if it reaches the target |
| `OwnershipWatching.WalkChainToFailure` | backend/marketplace_ownership_watcher.go:56-68 | reaches the failed state exactly from the chain before settlement (in two hops from the first state) or from itself |
| `OwnershipWatching.HandledDeals` | backend/marketplace_ownership_watcher.go:108-128 | a trade dealt with without an error ends settled with one send to the seller and its two ledger lines, refunded with one send to the buyer and its line, or untouched; no other trade is touched |
| `OwnershipWatching.WellWhenAnswered` | backend/marketplace_settlement.go:38-52 | a trade goes well exactly if it is not before settlement, or its handle's owner is unknown, not final or the seller, or the signer answers and, for a buyer's, the fee does not exceed the price |
| `OwnershipWatching.SweptByOwner` | backend/marketplace_ownership_watcher.go:98-129 | after a sweep that goes through, a trade that was before settlement has, by the final claim of its handle: the buyer's, ended settled with one send of price minus fee to the seller; a third party's, ended refunded with one send of the price to the buyer; every other row and its books are as before |
| `OwnershipWatching.OwnershipWatcher.Sweep` | backend/marketplace_ownership_watcher.go:88-132 | succeeds exactly if each trade would go well by itself, and then every trade has ended by its handle's owner; else it ends right after a trade that went wrong; the trades are dealt with one after the other in some order; nothing happens within the cooldown or without the chain |
| `EscrowWatching.EscrowWatcher.Sweep` | backend/marketplace_escrow_watcher.go:54-116 | the three loops together take every row to its fixpoint row; nothing happens within the cooldown or without the chain |
| `EscrowWatching.SweepIsFixpoint` | backend/marketplace_escrow_watcher.go:71-115 | after a sweep no trade is funded, none finalizing at or below the macro block, none waits for a fetched deposit, and a second sweep changes nothing |
| `EscrowWatching.WatchedMoves` | backend/marketplace_escrow_watcher.go:71-115 | which rows a sweep moves, to which state, and that the first paying transaction is the one recorded |
| `EscrowWatching.DepositFoundIff` | backend/marketplace_escrow_watcher.go:71-91 | a waiting trade goes on exactly if some fetched transaction goes to the escrow address, comes from the buyer, pays exactly the price and spells out the reference, and it carries such a one |
| `EscrowWatching.FirstPaymentFound` | backend/marketplace_escrow_watcher.go:71-91 | the recorded transaction is the first that pays, and there is one exactly if any does |
| `EscrowWatching.EscrowWatcher.RecordDeposits` | backend/marketplace_escrow_watcher.go:71-91 | the first loop records with each waiting trade the first transaction that pays for it |
| `EscrowWatching.EscrowWatcher.FinalizeDeposits` | backend/marketplace_escrow_watcher.go:93-100 | the second loop funds exactly the final deposits |
| `EscrowWatching.EscrowWatcher.HealFunded` | backend/marketplace_escrow_watcher.go:109-113 | the third loop moves on every funded trade |
| `DepositRefinement.SweepIsRun` | backend/marketplace_escrow_watcher.go:71-115 | what a sweep makes of the tables is reached by a run of the protocol, one task per transition |
| `ChainTypes.ReferenceReadsBack` | backend/marketplace_escrow_watcher.go:24-34 | every reference survives the trip through deposit data |
| `ChainTypes.ReferencesExactly` | backend/marketplace_escrow_watcher.go:24-34 | a reference is read from data exactly if the data is hex of NME1: and that reference |
| `MarketplaceStore.Store.CreateListing` | backend/marketplace_store.go:107-173 | the three refusals in order, or the listing written |
| `MarketplaceStore.Store.ReserveListing` | backend/marketplace_store.go:188-261 | the four refusals in order, or listing and trade written together |
| `MarketplaceStore.Store.ReleaseUnpaid` | backend/marketplace_store.go:263-296 | an unpaid reservation is closed and its listing reactivated, or nothing changes |
| `MarketplaceStore.Store.CancelUnpaidReservation` | backend/marketplace_store.go:298-308 | the same for a cancellation |
| `MarketplaceStore.Store.ExpireStaleReservations` | backend/marketplace_store.go:310-355 | closes exactly the unpaid reservations whose deadline is set and has come and that have a listing row, reopens their listings, leaves every other row, and returns how many rows changed |
| `MarketplaceStore.Store.Transition` | backend/marketplace_store.go:357-387 | changes one row if it is in the expected state and the table allows the move, else nothing |
| `MarketplaceStore.Store.FindTradeByReference` | backend/marketplace_store.go:400-409 | a trade with the reference, or the fact that there is none |
| `MarketplaceStore.Store.TradesInState` | backend/marketplace_store.go:431-438 | every row in the state once, in any order |
| `MarketplaceStore.Store.MarkPayoutAttempt` | backend/marketplace_store.go:475-505 | marks a pending, unmarked trade and returns its row |
| `MarketplaceStore.Store.MarkRefundAttempt` | backend/marketplace_store.go:507-537 | the same for refunds |
| `MarketplaceInvariant.ListableOnce` | backend/marketplace_store.go:107-147 | in tables that are in order, listing succeeds exactly for a handle without a listing row |
| `MarketplaceInvariant.ReservationExpiresIff` | backend/marketplace_store.go:237-354 | a reservation unpaid since it was made expires, its listing active again, exactly in a sweep at least 1800 seconds later; before that its row stays |
| `MarketplaceInvariant.PaidNeverExpires` | backend/marketplace_store.go:310-355 | a sweep never touches a trade that has a deposit or has gone on |
| `MarketplaceInvariant.WithdrawalUndoes` | backend/marketplace_store.go:188-308 | canceling a fresh reservation gives the listings back exactly as they were, and leaves one canceled trade |
| `MarketplaceInvariant.ReserveKeepsOrder` | backend/marketplace_store.go:188-261 | reserving keeps listings held, deals exclusive, references unique and the cap of three |
| `MarketplaceInvariant.ReleaseKeepsOrder` | backend/marketplace_store.go:263-296 | withdrawing a reservation keeps them |
| `MarketplaceInvariant.OverdueAreExpirable` | backend/marketplace_store.go:310-355 | in tables that are in order the expiry loop closes exactly the unpaid reservations whose deadline is set and has come |
| `MarketplaceTables.ExpireNext` | backend/marketplace_store.go:331-354 | one turn of the expiry loop adds exactly one closed reservation or skips one without a listing |
| `Ledger.EscrowLedger.Append` | backend/marketplace_ledger.go:39-53 | adds one stamped line and touches no other |
| `Ledger.EscrowLedger.CurrentBalance` | backend/marketplace_ledger.go:55-59 | the sum of all lines |
| `Ledger.BalanceByTrade` | backend/marketplace_ledger.go:55-59 | the balance is the sum of the trades' own balances |
| `AdminSummaries.Summarise` | backend/marketplace_admin.go:80-96 | exact counts per state, exact number of stuck trades, and the expected balance as the sum over held trades, whatever the sort |
| `TradeTransactions.HandoverWorksIff` | backend/marketplace_handlers.go:282-308 | an accepted release and claim, with any transactions before and between them, make the buyer the owner exactly if the seller signed a release that counts and no claim but the buyer's holds the handle when the buyer claims it |
| `TradeTransactions.AcceptedIff` | backend/marketplace_handlers.go:282-308 | the handlers accept exactly what the party itself sent, a registry sweep keeps, and the registry reads as a release or a claim of the trade's handle |
| `TradeTransactions.BuyerIsForestalled` | backend/marketplace_handlers.go:282-308 | for every trade an input on which all checks pass and a third party's claim between the two takes the handle |
| `TradeTransactions.ChecksAgreeIff` | backend/marketplace_handlers.go:282-308 | the sender the handlers check and the owner the registry credits are the same party exactly without a swap contract, or with one whose creator is unknown or itself |
| `TradeTransactions.SwapReleaseIsRefused` | backend/marketplace_handlers.go:282-294 | for every trade a release through a swap contract that takes the handle from the seller in the registry and that the handler refuses |
| `TradeTransactions.CheckedSenderCounts` | backend/marketplace_handlers.go:282-308 | outside swap contracts the checked sender is the credited one |
| `HandleFold.FoldFindsHolder` | backend/handles_registry.go:98-126 | the fold names exactly the holder of each handle: the first claim since the last release its holder signed |
| `HandleFold.OwnershipIsContinuous` | backend/handles_registry.go:106-113 | whoever owns a handle and later does not has signed a counting release in between |
| `HandleFold.FirstClaimWins` | backend/handles_registry.go:116-125 | without counting releases the first claim in the list has the handle for good |
| `HandleFold.EarliestClaimWins` | backend/handles_registry.go:91-125 | without counting releases the claim in the lowest block, and in it at the lowest index, owns the handle under every sort of the history, and the entry is that transaction's |
| `HandleFold.LowerIndexWins` | backend/handles_registry.go:91-96 | of two claims in one block the one at the lower index has the handle, in whatever order they are fetched |
| `HandleFold.FoldIsOfTheSet` | backend/handles_registry.go:88-126 | sorted lists with the same acting transactions, each any number of times, fold to the same registry |
| `HandleFold.RebuildIsOfTheSet` | backend/handles_sync.go:93-112 | the registry is a function of the set of transactions, under any order, repetition and unstable sort, if one of the lists passes the ambiguity check |
| `HandleFold.UnambiguousOrders` | backend/handles_sync.go:93-112 | passing the check and unique indexes give different acting transactions different positions, missing indexes read as zero |
| `HandleFold.TieHasTwoOutcomes` | backend/handles_registry.go:91-96 | with two claims at one position both sort results are possible and name different owners |
| `HandleRegistries.HandleRegistry.Rebuild` | backend/handles_registry.go:88-132 | the loop computes the fold of whatever order the sort produced, and replaces the map even if persisting fails |
| `HandleRegistries.HandleRegistry.ResolveAddress` | backend/handles_registry.go:244-260 | a claim of the address in the lowest block and index it holds, in any map order, none exactly if it has none |
| `HandleRegistries.EarliestIsUnique` | backend/handles_registry.go:236-260 | with entries from different positions the lookup has one answer |
| `HandleRegistries.RebuiltEntriesDiffer` | backend/handles_registry.go:88-126 | a registry rebuilt from an unambiguous history has entries from different positions |
| `HandleSyncing.RegistryOrderingAmbiguous` | backend/handles_sync.go:93-112 | grouping by block finds exactly the lists with two claims or releases of one block, one without an index |
| `HandleSyncing.InboundCounts` | backend/handles_sync.go:141-146 | the sweep keeps each transaction addressed to the registry as often as the history holds it, and no other |
| `HandleSyncing.InboundConcat` | backend/handles_sync.go:141-146 | each part of the history leaves its own inbound part in its place, so order is kept |
| `HandleSyncing.HandleSyncer.Sweep` | backend/handles_sync.go:126-158 | succeeds exactly if all pages arrive, the history is below the ceiling, its order known, and the copy persisted; then the registry is the fold of all transactions of the history addressed to the registry, each entry made by one of them; earlier failures leave the map unchanged; complete says which |
| `RegistryRefinement.SweepIsEvent` | backend/handles_sync.go:126-158 | when the fetched history holds what is on the chain for the registry, the sweep's fold is what the escrow protocol's registry becomes |
| `HistoryPaging.GetAllTransactionsByAddress` | backend/nimiq_rpc.go:161-182 | complete exactly if the history is shorter than the pages hold, and then the whole history; a failing page matters exactly if it is asked for |
| `HistoryPaging.FetchPage` | backend/nimiq_rpc.go:170-179 | one page extends the fetched prefix by the next stretch, and is short only at the end |
| `HistoryPaging.NextPage` | backend/nimiq_rpc.go:138-144 | with distinct hashes the cursor page is the next stretch of the history |
| `ProfileClient.PortAgrees` | packages/profile-client/src/registry.ts:165-199 | every list the client accepts the backend accepts, and both name the same winning transaction and compact owner for every handle |
| `ProfileClient.FoldsAgree` | packages/profile-client/src/registry.ts:176-197 | the two folds agree on every order of every history |
| `ProfileClient.NoHeightIsNever` | packages/profile-client/src/registry.ts:165-199 | without an activation height the client resolves as with one above every block |
| `ProfileClient.NoHeightKeeps` | packages/profile-client/src/registry.ts:148-199 | without an activation height whoever has a handle keeps it, whatever follows |
| `ProfileClient.ResolveHandleRegistry` | packages/profile-client/src/registry.ts:165-199 | the loop with its owner cache computes the fold |
| `ProfileClient.FetchAllTransactionsByAddress` | packages/profile-client/src/rpc.ts:88-103 | returns the history exactly if it is shorter than the pages hold |
| `ProfileClient.CoerceIndexes` | packages/profile-client/src/rpc.ts:198-200 | missing indexes become zero in place, all else stays |
| `ProfileClient.CoercionIsHarmless` | packages/profile-client/src/rpc.ts:196-200 | overwriting missing indexes does not change what the fold resolves |
| `ProfileClient.RegistryOrderingAmbiguous` | packages/profile-client/src/rpc.ts:105-117 | the client's grouping finds exactly the lists with two transactions of one block, one without an index |
| `ProfileClient.ClientIsStricter` | packages/profile-client/src/rpc.ts:105-117 | whatever the backend finds ambiguous the client does too |
| `ProfileClient.ResolveHandleByAddress` | packages/profile-client/src/registry.ts:202-218 | a claim of the address in the lowest block and index it holds, null exactly if it has none |
| `ProfileClient.LookupsAgree` | packages/profile-client/src/registry.ts:202-218 | agreeing registries have the same earliest handles for every address |
| `ClaimCodec.ParsesExactlyPayloads` | backend/handles.go:65-88 | a payload parses to an action exactly if it is that action's bytes, alone or followed by a zero byte and anything |
| `ClaimCodec.WireBytes` | backend/handles.go:18-88 | NF, 1, then 1 for a claim or 7 for a release, then 3 to 31 small letters, digits or underscores, then nothing or a zero byte and anything, reads as that action; another type byte or name does not |
| `ClaimCodec.ParsesExactlyRaw` | backend/handles.go:91-100 | raw bytes parse exactly if they are a payload or the text envelope of one |
| `ClaimCodec.ParsesExactlyClaimData` | backend/handles.go:117-135 | data parses exactly if its bytes do, or are hexadecimal text of bytes that do |
| `ClaimCodec.FormsAreDisjoint` | backend/handles.go:117-135 | no earlier parse attempt captures a later form |
| `ClaimCodec.BinaryRoundTrip` | backend/handles.go:65-135 | every valid action reads back from the binary form, with or without a display name, in hex and in double hex |
| `ClaimCodec.TextRoundTrip` | backend/handles.go:49-62 | every made envelope reads back, and has at most 64 characters exactly for handles of at most 26 |
| `Hex.DecodeEncode` | backend/handles.go:49-62 | decoding undoes encoding |
| `Hex.DecodeIffHexText` | backend/handles.go:102-112 | decoding succeeds exactly on hexadecimal text of even length |
| `Hex.DecodeIgnoresCase` | backend/handles.go:102-112 | capital and small digits decode alike |
| `Hex.DressedHexReads` | backend/marketplace_escrow_watcher.go:24-28 | encoded bytes are read back whatever white space surrounds them, with or without 0x |
| `AddressCodec.AlphabetAt` | backend/address.go:11 | the symbols are those of the program's alphabet, in order |
| `AddressCodec.ToBase32` | backend/address.go:73-100 | the carry/shift loop computes the recursive encoding |
| `AddressCodec.Base32Encodes` | backend/address.go:73-100 | n bytes give ceil(8n/5) symbols whose base-32 value is the bytes' value shifted by the padding |
| `AddressCodec.Base32OfAddress` | backend/address.go:37-45 | twenty bytes give 32 symbols of the same value |
| `AddressCodec.Base32Injective` | backend/address.go:73-100 | different inputs, of whatever lengths, give different texts |
| `AddressCheck.IbanCheck` | backend/address.go:47-71 | the chunk loop computes the carried check |
| `AddressCheck.IbanIsMod97` | backend/address.go:47-71 | the chunked check equals the whole decimal expansion modulo 97 |
| `Addresses.MadeAddressesAreValid` | backend/inbox.go:76-90 | every address made from twenty bytes is valid, and its body has the value of the bytes |
| `Addresses.ValidIff` | backend/inbox.go:76-90 | an address of 36 symbols with decimal check digits is valid, in capitals or not, exactly if it has country code NQ, alphabet symbols, and a whole expansion congruent to 1 modulo 97 |
| `Addresses.SubstitutionIsDetected` | backend/inbox.go:76-90 | in a valid address with decimal check digits, replacing a body symbol or check digit by another of its kind makes it invalid |
| `Addresses.ForRPCKeepsAddress` | backend/marketplace_settlement.go:106-111 | the form passed to the node names the same compact address, with 44 characters if valid and untouched if not |
| `AddressText.CompactNormalize` | backend/address.go:13-27 | compacting is idempotent and undoes grouping |
| `AddressText.CaseIsIgnored` | backend/address.go:25-27 | an address in small letters is the same address |
| `AddressText.GroupsOfFour` | backend/address.go:13-23 | grouping keeps the symbols in order with one space after every four and none at the end |
| `InboxStores.MailboxesAreBounded` | backend/inbox_store.go:99-232 | in every interleaving of statements a mailbox holds at most 100 rows, at most 10 per sender, and one per sender and nonce |
| `InboxStores.RepeatIsHarmless` | backend/inbox_store.go:120-161 | in every run, a send whose nonce is stored when it looks gets the stored id, one whose nonce is stored when it inserts goes on to look; neither adds anything |
| `InboxStores.SecondLookEnds` | backend/inbox_store.go:155-163 | a send that met the constraint ends with the id then stored under its nonce, or with not found exactly if that row has been deleted since, and adds nothing |
| `InboxStores.ListsOwnFresh` | backend/inbox_store.go:169-200 | whatever others do between its two statements, a listing call answers with all messages of its mailbox, of no other, and none older than its cutoff |
| `InboxStores.RunOk` | backend/inbox_store.go:23-30 | locks are held by the calls past them, and counts read under a lock stay true |
| `ScopedAuth.UpsertKeepsConsent` | backend/app_registry.go:89-172 | mirroring an app keeps consent, and revokes its live sessions exactly if owner or scopes change |
| `ScopedAuth.InsertKeepsConsentIff` | backend/auth_store.go:250-281 | a new session keeps consent exactly if its scopes are declared at that moment |
| `ScopedAuth.AuthStore.CanonicalScopes` | backend/auth_store.go:69-80 | the distinct requested scopes |
| `ScopedAuth.AuthStore.ValidateScopes` | backend/auth_store.go:82-115 | accepts exactly non-empty requests within an enabled app's scopes |
| `ScopedAuth.AuthStore.CreateChallenge` | backend/auth_store.go:154-198 | stores a challenge for exactly the validated scopes, good for 300 seconds |
| `ScopedAuth.AuthStore.ConsumeChallenge` | backend/auth_store.go:200-227 | succeeds once, exactly before expiry, and touches no other challenge |
| `ScopedAuth.AuthStore.IssueSession` | backend/auth_store.go:250-281 | as one call, adds one session of seven days for exactly the validated scopes and keeps consent |
| `ScopedAuth.AuthStore.ResolveSession` | backend/auth_store.go:287-316 | resolves exactly live sessions of enabled apps, within the declared scopes |
| `ScopedAuth.AuthStore.RevokeSession` | backend/auth_store.go:340-353 | revokes that session and no other |
| `ScopedAuth.AuthStore.RevokeAllSessions` | backend/auth_store.go:412-425 | revokes and counts exactly the address's live sessions |
| `ScopedAuth.AuthStore.UpsertApp` | backend/app_registry.go:89-172 | refuses unknown scopes, else mirrors the app, enabled as before or when new, revokes its sessions exactly if owner or scopes change and no others, and keeps consent |
| `AuthSessions.ChallengeYieldsOneSession` | backend/auth_handlers.go:67-100 | however handlers interleave, two sessions never stem from one challenge |
| `AuthSessions.SessionsAreSigned` | backend/auth_handlers.go:67-100 | in every run a session stems from a challenge whose signature was found good before it expired, grants exactly what the challenge asked for to its address, and had its scopes found declared by an enabled app |
| `AuthSessions.RevocationIsPermanent` | backend/auth_store.go:340-353 | in every run a revoked session stays revoked and no grant changes |
| `AuthSessions.ConsentIffTimely` | backend/auth_store.go:250-281 | a step keeps consent exactly if it is not an insert that an app change has overtaken |
| `AuthSessions.ConsentHolds` | backend/app_registry.go:89-172 | consent holds all the way through a run exactly if no insert of it has been overtaken |
| `AuthSessions.ConsentCanBeOvertaken` | backend/auth_store.go:250-281 | a concrete run that ends with a session beyond its app's declared scopes |

## Left out

- Text: strings are byte sequences with codes below 256; upper-casing and white space are ASCII, where Go also folds and trims Unicode.
- Amounts, heights and versions are unbounded naturals; the program keeps them within 64 bits and the model does not wrap.
- Postgres: each transaction is one atomic step; isolation levels, connection failures and SQL text are not modelled. Two reservations of one buyer that run truly concurrently could both pass the count of three.
- Legacy import, migrations and transitions with arbitrary mutations made only by tests, which bypass the invariants.
- The 5000-transaction window of the deposit fetch: the watcher is given an arbitrary list of transactions.
- Time: one call reads one clock value; whether the expiry sweep or a cooldown fires in time is not modelled, so an expiry task may start for any unpaid reservation.
- Liveness: nothing forces a task to run; what is proved is which trades some continuation can close.
- A registry sweep reads the inbound transactions at one moment; that pages are fetched one by one is modelled in HistoryPaging only.
- Assumptions on the outside: attempt timestamps are positive, the node honours the requested page size, and transactions with one hash have one content.
- EscrowWatching.EscrowWatcher.Sweep: requires unique trade references, which the database's unique column provides.
- ProfileClient.PortAgrees: takes the parser and the owner lookup as parameters; the two languages' parsers differ on a "0x" after the text prefix.
- HandleRegistries.HandleRegistry.Rebuild: takes the sorted list as an argument, any list the library's unstable sort may return, instead of sorting in place.
- ScopedAuth.AuthStore.UpsertApp: compares scopes as sets where the program compares sorted lists, and leaves out origins, display data and the form of the audience.
- PurgeHandles, the warm-start cache, registry statistics and the availability answer (form, reserved list, taken).
- Field checks before the inbox takes a lock (payload size, nonce form, clock drift) and the order of listed messages.
- Signatures, hashes and random ids are inputs; HTTP, JSON, RPC transport, logging and HTML are not modelled.
- The admin page's chain balance and its sort by update time.
- Friends, awards, profile, backup and statistics stores and the Vue clients: mostly single-branch members.
