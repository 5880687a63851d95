# Verification of the AcceptXMR payment tracker

AcceptXMR watches the Monero chain for payments to invoices. It never rescans from scratch: a block cache advances one
block at a time and repairs reorganisations by walking `prev_id` links, a pool cache remembers what unconfirmed
transactions paid, and the scanner drops and re-adds transfers from the deepest changed block on, recounting an invoice
only if an order-insensitive comparison says it changed. This project models that bookkeeping in Dafny and proves when
it agrees, in whole runs, with the simple specification it stands for: rescan the blocks last seen from the invoice's
creation height on, and total what they pay.

How the model is laid out:

- `Prelude`, `Invoices`, `Transfers`, `Chain`: values, orderings, the recount and its meaning.
- `BlockCaching`, `Txpool`, `OutputKeys`, `Storage`, `Subaddresses`: each component as functions on its state, its
  theorems, and (where the source updates objects in place) the class whose methods are proved against them.
- `Scanning`, `Ledger`, `Concurrency`: one scan, the gateway as a state machine, and the two concurrent halves of a scan.
- `Upkeep`, `Runs`, `Itemised`, `PoolLedger`, `Confirmations`, `Conservation`, `Crediting`, `PoolRuns`, `FilterRuns`: what
  every scan keeps, and the theorems about all runs.
- `Filtering`, `Reorgs`, `Counterexamples`: what a scan does and does not depend on, exactly when the ledger is right,
  and concrete histories in which it is not.
- `Scanner`, `SubaddressCaching`, `PaymentGateways`, `Publishing`: the loops and objects of the scanner, the subaddress
  cache, the gateway and the publisher.
- `HeaderSplitting`, `InvoiceIdCodec`: the authentication header splitter and the invoice id encodings.

What the environment is. The daemon during one update is an arbitrary function from heights to answers; an update asks
for each height at most once, so this includes chains that change meanwhile. The two concurrent scans are an arbitrary
interleaving of atomic store operations. Hash map orders, random draws, random sender ids, failing requests and failing
writes are parameters. Which outputs of a transaction belong to the wallet is data of the transaction, as the view key
would tell.

What a run is. An error-free run is any sequence of error-free scans and of steps of creations and removals. It starts
before the first scan, with no stored invoice holding a mined transfer inside the initial window. Order of transfers,
paid heights, confirmations, the allocator, the pool and the comparison of stores are settled for all error-free runs.
The ledger and conservation theorems are about those in which the count of every scan covers what its cache update
replaced. From a linked window this is so until a chain switches in the middle of a repair (`Runs.LinkedRunIsTrusted`).
Against one chain, `BlockCaching.CountCoversIff` says when it is so for an update with a new block and
`BlockCaching.CountCoversAgainIff` for one without; `Reorgs.ErrorFreeScanIsRightIff` says when an invoice is right even
if it is not so.

Where the code does other than it says or suggests, the model follows the code:

- The count an update returns is trusted as a depth, but it counts replaced blocks. If the chain switches while a repair
  walks down, the cache is left with a broken link; the next update then replaces a block deeper than its count, which
  is neither dropped nor rescanned (`library/src/caching/block_cache.rs:116-138`): `BlockCaching.CountCoversIff`,
  `Counterexamples.SwitchLeavesAWrongLedger`.
- The first scan rescans the whole window but drops transfers by the smaller count (`library/src/scanner.rs:279-281`
  against `library/src/scanner.rs:182`), and a restart begins one block below what was scanned:
  `Filtering.FirstScanIsExactIff`, `Counterexamples.RestartCanDoubleATransfer`.
- `contains_sub_index` of the in-memory store also answers yes below a stored subaddress (`Storage.RangeTestIsOneSided`).
  That does not change which invoices a successful scan stores (`Filtering.FilterIndependence`), nor over whole runs what
  was mined (`FilterRuns.MinedAgrees`); but a pool payment to a dead index is remembered and credited to an invoice
  created on it later (`FilterRuns.PoolAgreesIff`), and a scan can fail that the exact count would let through
  (`Filtering.RangeScanSucceedsIff`, `Filtering.OnlyTheRangeTestFails`).
- `closed` is not reset inside a publishing loop, so every sender tried after a closed one is removed as well
  (`library/src/pubsub.rs:145-160`): `Publishing.OnlyClosedAreRemovedIff`.
- `init` of the subaddress cache can leave nothing to draw from: `SubaddressCaching.NothingLeftIff`; and it takes the
  minor part of the greatest index over all accounts: `SubaddressCaching.StartIsAccountedIff`,
  `SubaddressCaching.OtherAccountHidesALiveIndex`.
- A failed `new_invoice` does not give its subaddress back: `PaymentGateways.PaymentGateway.NewInvoice`.
- A failed scan keeps the advanced block cache and loses its count, so that a block can go by unscanned
  (`library/src/scanner.rs:255-266`): `Reorgs.ScanAfterFailuresIsRightIff`, `Counterexamples.FailedScanLosesAPayment`.
- A transaction in the pool at start-up is never scanned there: `Txpool.StartupPoolIsNeverScanned`.

Check the whole project with `dafny verify dfyconfig.toml`.

## Model

| member | source | states |
|---|---|---|
| `Runs.LedgerRefinement` | library/src/scanner.rs:176-253 | in every run of error-free scans, creations and removals whose scan counts cover what was replaced, an invoice created above the cache height holds, height by height, exactly the multiset of accepted outputs to its subaddress in the last-seen blocks from its creation height to the cache height, and no other mined transfer |
| `Itemised.LedgerByOutput` | library/src/scanner.rs:376-425 | the same counted over positions: for every height between creation and cache height and every amount, the invoice holds that transfer exactly as often as there are positions (transaction i without a time lock, owned output j) in the block last seen there whose output pays that amount to its subaddress and is the one its key belongs to; nothing at other heights |
| `Itemised.OutputsExactly` | library/src/scanner.rs:376-399 | an output stands in the list of outputs gone through as often as there are positions (i, j) at which it is owned output j of transaction i without a time lock |
| `Itemised.OutputIsListed` | library/src/scanner.rs:399 | so every owned output of every such transaction is gone through |
| `Itemised.CreditsByPosition` | library/src/scanner.rs:398-425 | what a list of transactions credits a subaddress is, amount by amount, the number of positions that pay it |
| `PoolLedger.PoolByOutput` | library/src/scanner.rs:321-368 | in every error-free run with an honest daemon, right after a scan, an invoice holds a pool transfer of an amount exactly as often as there are positions (hand-over, transaction, output) of that amount to its subaddress, each the one its key belongs to and let through by the filter of that scan, in transactions that have stayed in the pool since |
| `Runs.TermsNeverChange` | library/src/scanner.rs:200-244 | in every error-free run an invoice keeps address, index, dates, request, required confirmations and description as long as it is stored |
| `Runs.LinkedRunIsTrusted` | library/src/caching/block_cache.rs:66-138 | from a linked window, with one chain served during every scan but perhaps the last, the counts of an error-free run cover what was replaced, so that all run theorems apply |
| `Runs.SeenIsLastCached` | library/src/caching/block_cache.rs:66-101 | in every error-free run, "last seen" at a height is the block the cache held there in the last state whose window reached that height |
| `Runs.RunStaysOrderly` | library/src/scanner.rs:200-239 | in every error-free run, whatever the counts cover, every invoice's transfers stay sorted by height, its totals are those of a full recount, and nothing mined is on record above what was scanned |
| `Runs.PaidHeightIsFirst` | library/src/scanner.rs:226-239 | in every error-free run the paid amount is the sum of the invoice's own transfers and the paid height the lowest by which the mined ones meet the request, none exactly when no height does |
| `Upkeep.ApplyKeepsOrder` | library/src/scanner.rs:200-244 | an error-free scan keeps an invoice in that order, stores the full recount up to transfer order, and brings it to the cache height plus one |
| `Runs.RunKeepsInv` | library/src/scanner.rs:102-174 | the ledger invariant (sorted and totalled invoices that match the ledger, disjoint subaddresses) holds in every state of every such run |
| `Runs.EmptyStoreStarts` | library/src/scanner.rs:47-99 | a gateway started on an empty store is a legal start of a run, whatever block window (linked or not) and pool it meets |
| `Runs.PaidHeightIsRight` | library/src/scanner.rs:226-239 | for a positive request the paid height is the lowest height by which the ledger's cumulative mined amount meets it, and none exactly when no height does; the paid amount is the sum of all transfers |
| `Runs.AllocatorIsDisjoint` | library/src/payment_gateway.rs:280-359 | in every error-free run no two stored invoices share a subaddress, and a stored invoice's subaddress is at most the highest index and neither available, drawn nor on its way back |
| `Runs.NeverDrawsFromNothing` | library/src/caching/subaddress_cache.rs:106-121 | over every error-free run, a gateway that starts with something to draw from never draws from an empty range before the last minor index is used up, and every draw leaves at least a hundred |
| `Runs.NoDuplicateInvoice` | library/src/payment_gateway.rs:314-315 | the duplicate-invoice error is unreachable in every error-free run: every creation that reaches the store is stored |
| `Ledger.NextKeepsInv` | library/src/scanner.rs:102-174 | every event, be it a scan whose count covers what was replaced or a step of a creation or removal, keeps the ledger invariant |
| `Ledger.ApplyKeepsInvoice` | library/src/scanner.rs:200-244 | after a scan the stored invoice matches the ledger of the new window, whether or not the recount was skipped, and equals the full recount up to transfer order |
| `Ledger.CarriedAt` | library/src/scanner.rs:201-218 | dropping from the deepest change and re-adding the rescan leaves, at each rescanned height, exactly what the block now cached there credits, and below that what was there |
| `Ledger.ScanSorts` | library/src/scanner.rs:200-218 | kept and re-added transfers together are sorted by height, pool transfers last |
| `Ledger.CleanScanIsTruthful` | library/src/scanner.rs:107-136 | the findings of an error-free scan whose count covers what was replaced agree with the updated cache and the key table |
| `Ledger.LinkedScanIsClean` | library/src/caching/block_cache.rs:66-101 | from a linked cache every error-free scan, whatever the daemon serves, has a count that covers what was replaced; against one chain it leaves a linked cache |
| `Concurrency.InterleavedScanIsErrorFree` | library/src/scanner.rs:110-136 | any interleaving of the store operations of the block scan and the pool scan that finishes without error, reporting per slot and for the pool the outputs judged unique that pass the filter, is an error-free scan of the ledger machine with the same key table |
| `Concurrency.JudgedIsAccepted` | library/src/scanner.rs:398-425 | the outputs judged unique along the way are those that own their key in the final table |
| `Reorgs.ErrorFreeScanIsRightIff` | library/src/scanner.rs:182 | an error-free scan of a valid state, the first or a later one and however its cache changed, leaves an invoice right if and only if every block that is due but was not rescanned would credit it what is on record there |
| `Reorgs.ScanAfterFailuresIsRightIff` | library/src/scanner.rs:258-262 | the first error-free scan after any number of failed ones leaves an invoice right if and only if every block that is due but was not rescanned, because it was replaced or first reached during a failed scan, would credit it what is on record there, which is nothing where nothing had been scanned |
| `Reorgs.KeepsWhatWasThere` | library/src/scanner.rs:200-205 | below the lowest rescanned block an invoice keeps what the block seen there when it was last reconciled credits it |
| `Counterexamples.SwitchLeavesAWrongLedger` | library/src/caching/block_cache.rs:116-138 | a concrete run of two error-free scans with a ten-block window: the chain switches in the middle of a repair, the next update replaces a block it does not count, and the invoice keeps a payment no last-seen block holds |
| `Counterexamples.FailedScanLosesAPayment` | library/src/scanner.rs:255-266 | a concrete gateway in order, one chain served throughout: one scan fails after the cache advanced onto a block that pays, the next is clean, and the payment is never recorded |
| `Conservation.TotalPaidIsConserved` | library/src/scanner.rs:130-138 | in every run, after the first scan, the amounts paid to any distinct stored invoices add up to at most the worth of the accepted outputs in sight (last-seen chain and remembered pool) |
| `Crediting.VisibleNoneTwice` | library/src/scanner.rs:130-132 | if no transaction is in two last-seen blocks, twice in one, or in one and in the remembered pool, no output is in sight twice |
| `Crediting.VisibleKeysAreDistinct` | library/src/scanner.rs:398-407 | then no one-time key is counted twice either |
| `Crediting.NoOutputPaysTwoInvoices` | library/src/scanner.rs:398-425 | two outputs in sight with one key, each paying a stored invoice, are one output and one invoice |
| `Crediting.PaidByDistinctOutputs` | library/src/scanner.rs:130-138 | conservation over distinct outputs: in every run, whenever no transaction is in sight at two places, the invoices together are paid at most the worth of pairwise different outputs with pairwise different keys, each the one accepted for its key |
| `Conservation.PaidIsVisible` | library/src/scanner.rs:201-239 | each invoice's paid amount is covered by the outputs in sight that pay its own subaddress |
| `Conservation.RunKeepsPoolInv` | library/src/scanner.rs:321-368 | in every error-free run with an honest daemon an invoice's pool transfers never exceed what the pool cache remembers for its subaddress |
| `Conservation.AmountPaidFits` | library/src/scanner.rs:232 | the unbounded sum agrees with 64-bit arithmetic as long as the outputs in sight are worth less than 2^64 piconeros |
| `Confirmations.ConfirmationsAreExact` | library/src/invoice.rs:239-247 | in every error-free run from an empty store a mined paid height is below the current height, so confirmations are the exact difference to the cache height plus one, at least 1 |
| `Confirmations.ConfirmationsAre` | library/src/invoice.rs:239-247 | in every error-free run from an empty store there is no count exactly while the transfers add up to less than the request, the count is 0 exactly if they meet it but mined ones alone never do, and otherwise it is the number of blocks from the first height at which mined transfers meet it |
| `Confirmations.ConfirmedIff` | library/src/invoice.rs:99-103 | an invoice is confirmed if and only if its transfers meet the request and either no confirmation is required or mined transfers first met it at a height that lies deep enough |
| `Confirmations.ConfirmationsAreStable` | library/src/invoice.rs:99-103 | over any stretch of any error-free run from an empty store, while no scan counts a block at or below the paid height as replaced, the paid height stays, confirmations never decrease and a confirmed invoice stays confirmed |
| `Confirmations.RunUpToDate` | library/src/scanner.rs:220-223 | in every error-free run from an empty store every invoice is either untouched since creation or at the cache height plus one |
| `Filtering.FilterIndependence` | library/src/scanner.rs:411-422 | two error-free scans of the same state, blocks and pool with different filters that are true on every live subaddress, and any hash map orders, store the same invoices up to transfer order |
| `FilterRuns.MinedAgrees` | library/src/scanner.rs:411-422 | over whole error-free runs that differ in the filter alone, the stored invoices are the same, hold the same mined amounts at every height and were paid at the same height |
| `FilterRuns.PoolAgreesIff` | library/src/scanner.rs:321-368 | over such runs, with one filter wider than the other and an honest daemon, an invoice's pool transfers agree after a scan if and only if no transaction still in the pool was handed over when only the wider filter let the invoice's subaddress through and pays it |
| `FilterRuns.RangeIsWider` | library/src/storage/stores/in_memory.rs:68-74 | the range test is the wider of the two stores' filters |
| `Filtering.RangeScanSucceedsIff` | library/src/scanner.rs:411-416 | behind the range test a scan succeeds if and only if it does behind the exact count and no output that cannot be unblinded pays a dead subaddress below a live one |
| `Filtering.OnlyTheRangeTestFails` | library/src/storage/stores/in_memory.rs:68-74 | a concrete scan that fails for the in-memory store alone |
| `Filtering.SamePoolReport` | library/src/scanner.rs:352-367 | the pool report pays a live subaddress the same under both filters |
| `Filtering.FirstScanIsExactIff` | library/src/scanner.rs:279-281 | the first scan leaves an invoice exact over the window if and only if the invoice held no mined transfer in the window below the deepest changed block |
| `Counterexamples.RestartCanDoubleATransfer` | library/src/scanner.rs:279-281 | a concrete restart of a gateway with a ten-block window, at the height it starts at, whose clean first scan keeps and rescans a payment of 7 and records 14 |
| `Storage.TestsCoverLive` | library/src/storage/stores/sqlite.rs:258-284 | both the in-memory range test and the exact count are true on every live subaddress |
| `Storage.RangeTestIsOneSided` | library/src/storage/stores/in_memory.rs:68-74 | the in-memory test answers yes exactly for stored subaddresses and those below a stored one |
| `Transfers.PaidHeightIsFirstMet` | library/src/scanner.rs:226-239 | for sorted transfers the recount's total is their sum and its paid height is the first height by which the running total meets the request, if that happens at a mined transfer |
| `Transfers.TallyIgnoresOrder` | library/src/scanner.rs:224-239 | two height-sorted rearrangements of the same transfers recount to the same total and paid height |
| `Transfers.Recount` | library/src/scanner.rs:226-239 | the accumulation loop computes the recount |
| `Scanning.RefreshedIsTotalled` | library/src/scanner.rs:225-244 | skipping the recount is sound: whichever way an update goes, stored totals equal a full recount of the new transfers |
| `Scanning.UpdatedIsDifferent` | library/src/scanner.rs:220-243 | an update is saved exactly if it leaves another invoice than the one stored |
| `Scanning.RescannedAt` | library/src/scanner.rs:201-218 | at each height an updated invoice holds what it had strictly below the deepest change plus what the rescanned slots credit there |
| `Scanning.RescannedInPool` | library/src/scanner.rs:201-218 | its pool transfers are exactly those of the current pool report |
| `Scanning.RescannedSorted` | library/src/scanner.rs:201-218 | transfers stay sorted by height provided none was kept inside the rescanned range |
| `Scanning.BlocksReportCredits` | library/src/scanner.rs:286-312 | the oldest-first report of the rescanned slots credits a subaddress, at each height, exactly what that block's accepted outputs pay it |
| `Scanning.CreditsAreStable` | library/src/scanner.rs:432-454 | what a block credits does not change when the key table grows |
| `Invoices.InvoicesEqual` | library/src/invoice.rs:352-375 | the counting loops decide equality of all fields with transfers compared as multisets |
| `Invoices.CountTransfers` | library/src/invoice.rs:354-361 | the counting loop counts each transfer that occurs, and no other |
| `Invoices.SameTransfersIff` | library/src/invoice.rs:352-375 | the order-insensitive comparison used in the model is equality of multisets |
| `BlockCaching.UpdateCountIsExact` | library/src/caching/block_cache.rs:66-101 | from a linked cache exactly the slots below the returned count were replaced (head included), every deeper slot holds the block the cache already had at that height, and against one chain the cache is linked again |
| `BlockCaching.CountedIffChanged` | library/src/caching/block_cache.rs:116-138 | against one chain a slot below the head is counted if and only if the block at its height really changed |
| `BlockCaching.RepairIsContiguous` | library/src/caching/block_cache.rs:116-138 | the walk replaces one contiguous run of slots and its count is the end of that run |
| `BlockCaching.RepairLinks` | library/src/caching/block_cache.rs:116-138 | against one chain the walk leaves everything linked |
| `BlockCaching.UpdateAgreesWithChain` | library/src/caching/block_cache.rs:72-98 | once the head advanced against one chain every slot is that chain's block at its height, whatever the cache held before |
| `BlockCaching.CountCoversIff` | library/src/caching/block_cache.rs:66-138 | of any cache, linked or not, that advances against one chain, every replaced slot is below the returned count if and only if no cached block that is the chain's lies above one that is not |
| `BlockCaching.CountCoversAgainIff` | library/src/caching/block_cache.rs:96-138 | of any cache that finds no new block, against one chain, every replaced slot is below the returned count if and only if the cache is linked, or every slot below the first broken link is the chain's already, or that link is the head's and from slot 2 on no block that is the chain's lies above one that is not |
| `BlockCaching.RepairFollowsChain` | library/src/caching/block_cache.rs:116-138 | against one chain the walk replaces exactly the blocks that are not the chain's, and counts them |
| `BlockCaching.UpdateCountFits` | library/src/caching/block_cache.rs:66-101 | of any cache, an update reports at most the window and at least a new head |
| `BlockCaching.UpdateKeepsShape` | library/src/caching/block_cache.rs:66-101 | any update, failed or not, keeps the window length and slot heights and moves the height by at most one, exactly when the daemon is ahead |
| `BlockCaching.SynchronizesOnTime` | library/src/caching/block_cache.rs:155-157 | with a fixed daemon height the cache is synchronised after exactly max(0, daemon height - 1 - height) updates and not before |
| `BlockCaching.StartHeightFitsWindow` | library/src/scanner.rs:61-67 | the start height leaves room for a full window, and lies on the daemon's chain if that is long enough |
| `BlockCaching.StartHeightIs` | library/src/scanner.rs:61-67 | the cache starts one below the stored height, else one below the configured one, else at the daemon's top block, each kept within the daemon's chain and with room for the window |
| `BlockCaching.DeepestUpdateDoesNotUnderflow` | library/src/scanner.rs:182 | the deepest updated height is computed without wrapping and lies in the window or just above it |
| `BlockCaching.BlockCache.LoadBlocks` | library/src/caching/block_cache.rs:24-64 | the initial window holds the served blocks downwards from the height, fails exactly if a request fails, and is linked against one chain |
| `BlockCaching.BlockCache.CheckAndFixReorg` | library/src/caching/block_cache.rs:116-138 | the in-place loop computes the walk the theorems are about |
| `BlockCaching.BlockCache.Update` | library/src/caching/block_cache.rs:66-101 | the method's new state and count are the specified update, and the window stays well formed |
| `Txpool.KnownIffHandedOver` | library/src/caching/txpool_cache.rs:36-65 | a hash counts as known exactly if it was handed over in the present stay or has been in the pool since start-up |
| `Txpool.RequestedIff` | library/src/caching/txpool_cache.rs:42-46 | an update requests exactly the hashes in the pool that are neither of these, so undelivered ones are requested again |
| `Txpool.HandedOverOnce` | library/src/caching/txpool_cache.rs:36-65 | a transaction is handed to the scanner at most once per stay in the pool |
| `Txpool.DiscoveredIffFound` | library/src/caching/txpool_cache.rs:71-80 | what is remembered for a hash is exactly what was found at its hand-over in the present stay |
| `Txpool.ReportedIffFound` | library/src/scanner.rs:352-367 | so is what each scan reports, although the two merges prefer opposite sides |
| `PoolRuns.RememberedIffAccepted` | library/src/scanner.rs:321-368 | inside every error-free run with an honest daemon, what is remembered for a hash is exactly what the scan handed it in the present stay accepted from it |
| `PoolRuns.ReportedIffAccepted` | library/src/scanner.rs:352-367 | and so is what each of its scans reports |
| `Txpool.ReportedIsRemembered` | library/src/scanner.rs:352-367 | with an honest daemon the new and the remembered findings never collide |
| `Txpool.StartupPoolIsNeverScanned` | library/src/caching/txpool_cache.rs:23-34 | a transaction in the pool since start-up is never handed over and nothing is ever reported for it |
| `Txpool.TxpoolCache.Update` | library/src/caching/txpool_cache.rs:36-65 | the method hands the daemon exactly the hashes minus those known, forgets what left the pool and learns what was delivered; on a failed request the departed are already forgotten |
| `Txpool.TxpoolCache.InsertTransfers` | library/src/caching/txpool_cache.rs:71-80 | new findings are remembered next to the old |
| `OutputKeys.OneOutputPerKey` | library/src/scanner.rs:432-454 | under every interleaving of concurrent scans at most one output is ever judged unique for a key, and judging an output again repeats its verdict |
| `OutputKeys.FirstSeenWins` | library/src/scanner.rs:432-454 | a key that is new belongs from then on to the first output that shows it |
| `OutputKeys.EntriesNeverChange` | library/src/storage/stores/in_memory.rs:93-103 | stored key entries and verdicts never change in a run |
| `OutputKeys.InterleavingIsSequential` | library/src/scanner.rs:110-113 | when all scans have gone through their outputs, the final table is the one-by-one registration of all outputs in some order and every verdict is ownership in that final table |
| `OutputKeys.FinishedIsScannable` | library/src/scanner.rs:411-416 | when moreover no scan failed, no output judged had an index above 255 or was to be credited without being readable |
| `OutputKeys.ScanOkIff` | library/src/scanner.rs:398-425 | a scan succeeds if and only if every output index fits a byte and every output to be credited can be unblinded |
| `OutputKeys.ScanFindsOwners` | library/src/scanner.rs:398-425 | an error-free scan registers every output and finds exactly those that own their key and pass the filter, as judged then or later |
| `OutputKeys.AcceptedIsStable` | library/src/scanner.rs:432-454 | verdicts do not change once every output is registered |
| `Scanner.Scanner.Scan` | library/src/scanner.rs:102-174 | a scan succeeds exactly if both cache updates and both scans do; then the objects are in exactly the ledger machine's next state, the height is stored, every delivery is of an invoice that changed, as it is stored afterwards, and each such invoice reaches every open sender registered for it once for each registration; a failed scan stores no invoice and delivers nothing |
| `Scanner.Scanner.UpdateCaches` | library/src/scanner.rs:255-266 | succeeds exactly if the block cache update, the list of hashes and the fetch do; the block cache is updated either way |
| `Scanner.Scanner.ScanThem` | library/src/scanner.rs:110-132 | both scans run; succeeds exactly if both do, otherwise with the block scan's error first; registers every output and reports what the updated caches hold |
| `Scanner.Scanner.Settle` | library/src/scanner.rs:134-164 | the stored invoices become those of the specification; the list published holds exactly those that changed, each once and as stored, and the channels get what publishing that list delivers |
| `Scanner.ChangesAreDelivered` | library/src/scanner.rs:141-164 | publishing that list delivers nothing but changed invoices as stored afterwards, each to its own senders and the global ones left by then as often as they are registered and open |
| `Scanner.ScanBlocks` | library/src/scanner.rs:271-316 | the loop from the deepest slot up is one scan of all their outputs, with its errors and its key table, and reports each slot's accepted outputs at its own height |
| `Scanner.ScanTxpool` | library/src/scanner.rs:321-368 | fails exactly as the scan of the new transactions does, then remembering nothing; otherwise reports them together with what is remembered, and remembers them |
| `Scanner.ScanTransactions` | library/src/scanner.rs:370-427 | the loops over transactions and their outputs compute the specified scan, errors included, and pass over time-locked transactions |
| `Scanner.OutputKeyIsUnique` | library/src/scanner.rs:432-454 | a first-seen key is recorded and owned; a key recorded for another output is refused; an index above 255 is an error that records nothing |
| `Scanner.UpdateOne` | library/src/scanner.rs:198-244 | one invoice's update, with its skip, is the specified one |
| `Scanner.Retain` | library/src/scanner.rs:200-205 | the retain loop keeps exactly the transfers strictly below the deepest change |
| `Scanner.Push` | library/src/scanner.rs:207-218 | the push loop appends the payments to this subaddress at or after the creation height, and pool payments; for creation height 0 the 64-bit subtraction wraps |
| `Scanner.UpdateInvoices` | library/src/scanner.rs:176-253 | exactly the invoices that change are collected, as changed |
| `Scanner.SaveUpdates` | library/src/scanner.rs:141-164 | saving in turn replaces stored invoices and never brings back a removed one; subscriptions and deliveries are those of publishing each saved invoice in turn |
| `Scanner.SavedIsRefreshed` | library/src/scanner.rs:138-152 | saving exactly the changed invoices leaves every stored invoice refreshed |
| `Scanner.SequentialIsErrorFree` | library/src/scanner.rs:107-136 | running the block scan and then the pool scan is an error-free scan of the ledger machine |
| `Storage.InMemory.InsertInvoice` | library/src/storage/stores/in_memory.rs:41-47 | refuses exactly a duplicate id, otherwise adds the invoice |
| `Storage.InMemory.RemoveInvoice` | library/src/storage/stores/in_memory.rs:49-51 | returns and removes what was stored |
| `Storage.InMemory.UpdateInvoice` | library/src/storage/stores/in_memory.rs:53-58 | replaces only what is still stored |
| `Storage.InMemory.InsertOutputKey` | library/src/storage/stores/in_memory.rs:93-99 | refuses exactly a key already stored, so entries never change |
| `Storage.InMemory.UpsertHeight` | library/src/storage/stores/in_memory.rs:109-113 | stores the height and returns the previous one |
| `Storage.InMemory.LowestHeight` | library/src/storage/invoice_storage.rs:79-97 | the least current height over the stored invoices, none exactly when there are none |
| `Storage.InMemory.LastHeight` | library/src/scanner.rs:493-511 | the height scanned last is the stored one, or else the least current height of the stored invoices |
| `Subaddresses.TakeOutLeavesEnough` | library/src/caching/subaddress_cache.rs:106-121 | every draw from a nonempty cache leaves at least 100 subaddresses unless the last minor index is used up, and only moves the drawn index out and fresh ones in |
| `Subaddresses.TakeOutIs` | library/src/caching/subaddress_cache.rs:106-121 | what a draw leaves: the other indices in order and, when at most 100 of them are left, the next 100 indices or all there are |
| `Subaddresses.InsertAt` | library/src/caching/subaddress_cache.rs:123-125 | insertion replaces the entry of a listed index in its place and appends any other |
| `Subaddresses.ExtendByIsFresh` | library/src/caching/subaddress_cache.rs:138-160 | an extension appends fresh consecutive indices, as many as asked for or up to the last index there is |
| `Subaddresses.DrawKeepsAccount` | library/src/caching/subaddress_cache.rs:106-121 | a draw keeps every index up to the highest in exactly one place |
| `Subaddresses.CommitKeepsAccount` | library/src/payment_gateway.rs:314-315 | so does storing the new invoice, whose id is new |
| `Subaddresses.AbandonKeepsAccount` | library/src/payment_gateway.rs:296-315 | so does a failed creation, which loses its index |
| `Subaddresses.TakeKeepsAccount` | library/src/payment_gateway.rs:339 | so does taking an invoice out of the store |
| `Subaddresses.ReturnKeepsAccount` | library/src/payment_gateway.rs:346-350 | so does putting its subaddress back |
| `Subaddresses.AvailableAndLivePartition` | library/src/payment_gateway.rs:280-359 | in a state in order with nothing lost and nothing under way, available and live indices partition 0..=highest |
| `Runs.NothingIsLost` | library/src/payment_gateway.rs:280-326 | in every error-free run without an abandoned creation no index is lost |
| `Runs.RunPartitions` | library/src/payment_gateway.rs:280-359 | in such a run, whenever no creation or removal is under way, available and live indices partition 0..=highest |
| `SubaddressCaching.StartIsAccountedIff` | library/src/caching/subaddress_cache.rs:31-104 | start-up puts every index in exactly one place if and only if all stored invoices are in the gateway's account on distinct subaddresses |
| `SubaddressCaching.NothingLeftIff` | library/src/caching/subaddress_cache.rs:71-89 | start-up leaves nothing to draw from if and only if the first hundred indices and every index up to the greatest used one are in use |
| `SubaddressCaching.OtherAccountHidesALiveIndex` | library/src/caching/subaddress_cache.rs:54-69 | a concrete store with invoices in two accounts: start-up puts the highest index below a live one, which a later extension makes available again |
| `SubaddressCaching.HundredInvoicesUseUpTheStart` | library/src/caching/subaddress_cache.rs:71-89 | a concrete store that does so: one invoice on each of the first hundred indices |
| `SubaddressCaching.AvailableAtStart` | library/src/caching/subaddress_cache.rs:71-89 | exactly the unused indices up to the highest are available at start-up, each once |
| `SubaddressCaching.GenerateRange` | library/src/caching/subaddress_cache.rs:168-195 | the loop yields, in order, exactly the indices of the first account between the two, stopping where the minor index saturates |
| `SubaddressCaching.MaxUsed` | library/src/caching/subaddress_cache.rs:54-69 | the loop finds the minor part of the greatest used index, 0 when none is used |
| `SubaddressCaching.SubaddressCache.constructor` | library/src/caching/subaddress_cache.rs:31-104 | start-up as specified, from the stored ids |
| `SubaddressCaching.SubaddressCache.RemoveRandom` | library/src/caching/subaddress_cache.rs:106-121 | on an empty cache the generator panics and nothing changes; otherwise the drawn entry is returned, the other indices stay in order, 100 more are added exactly when at most 100 were left, and the retry is unreachable |
| `SubaddressCaching.SubaddressCache.Insert` | library/src/caching/subaddress_cache.rs:123-125 | insertion replaces in place or appends, and returns the previous address |
| `SubaddressCaching.SubaddressCache.ExtendBy` | library/src/caching/subaddress_cache.rs:138-160 | the loop computes the specified extension and returns how many were appended |
| `PaymentGateways.PaymentGateway.NewInvoice` | library/src/payment_gateway.rs:280-326 | a creation succeeds exactly if there is something to draw, a height is known and the store can be written; it then stores one new invoice whose every field is as asked for (derived address of the drawn index, request, required confirmations, expiration height as creation height plus interval, nothing paid); a failed one loses the index, and the cache is as after the draw either way |
| `PaymentGateways.NewIsFresh` | library/src/invoice.rs:44-69 | such an invoice with a positive creation height is one the ledger machine commits |
| `PaymentGateways.PaymentGateway.RemoveInvoice` | library/src/payment_gateway.rs:335-359 | a removal returns what was stored, makes its subaddress available again with the derived address, ends its subscriptions, and keeps the account in order |
| `PaymentGateways.CreationKeepsAccount` | library/src/payment_gateway.rs:280-326 | from draw to commit or failure every index stays in exactly one place, and the new id is new |
| `PaymentGateways.RemovalKeepsAccount` | library/src/payment_gateway.rs:335-359 | from store back to cache every index stays in exactly one place |
| `Publishing.EachTriedOnce` | library/src/pubsub.rs:142-181 | despite the reordering every registered sender is tried exactly once |
| `Publishing.EachOpenReceivesOnce` | library/src/pubsub.rs:142-181 | every open sender receives the update exactly once |
| `Publishing.ClosedAreRemoved` | library/src/pubsub.rs:142-181 | no closed sender stays registered |
| `Publishing.OnlyClosedAreRemovedIff` | library/src/pubsub.rs:145-160 | only closed senders are removed if and only if no open sender was registered after a closed one |
| `Publishing.OpenSenderCanBeRemoved` | library/src/pubsub.rs:145-160 | a concrete list in which an open sender receives the update and still loses its registration |
| `Publishing.Publisher.Publish` | library/src/pubsub.rs:142-162 | the loop terminates, tries the senders forwards up to the first closed one and then backwards from the end, delivers the invoice to each open one tried, keeps exactly those before the first closed one, and touches no other list |
| `Publishing.Publisher.SendUpdates` | library/src/pubsub.rs:142-181 | every open sender registered for the invoice or globally gets exactly this invoice, once for each registration, and nobody gets anything else; own senders are tried first, exactly the survivors stay, other invoices' lists are untouched |
| `Publishing.SentAllCount` | library/src/pubsub.rs:142-181 | over several updates of different invoices, each is delivered to a sender open at that update once for each of its registrations for that invoice at first and each global one left by then |
| `Publishing.NothingElseSent` | library/src/pubsub.rs:142-181 | and nothing but the updated invoices is delivered to anyone |
| `Publishing.GlobalsLeft` | library/src/pubsub.rs:163-180 | the global senders left after several updates are those before the first that was closed at some update |
| `Publishing.Publisher.RemoveSender` | library/src/pubsub.rs:211-229 | removal by id moves the last sender into the gap and keeps ids unique; an id that is not registered changes nothing |
| `Publishing.Publisher.Subscribe` | library/src/pubsub.rs:99-109 | only a tracked invoice can be subscribed to; a new id joins at the end, a registered one is replaced in its place |
| `Publishing.Publisher.SubscribeAll` | library/src/pubsub.rs:111-119 | the same for the global senders |
| `Publishing.Publisher.InsertInvoice` | library/src/pubsub.rs:121-130 | an invoice starts with no senders, overwriting any it had |
| `Publishing.Publisher.RemoveInvoice` | library/src/pubsub.rs:132-140 | all its senders go |
| `HeaderSplitting.SplitHeader` | library/src/monerod_client/authentication.rs:191-214 | the loop returns the trimmed text between the commas outside quotes; nothing for the empty header |
| `HeaderSplitting.SplitJoinRoundTrip` | library/src/monerod_client/authentication.rs:191-214 | any list of trimmed parameters, each with an even number of single and of double quotes and every comma after an odd number of one of them, joined with commas and any white space around each, splits into the same list |
| `HeaderSplitting.SplitIsTheOnlySplit` | library/src/monerod_client/authentication.rs:191-214 | for every nonempty header, any way to cut it into texts whose commas are quoted and whose quotes (but for the last) are closed is the one the splitter uses, and there is one |
| `HeaderSplitting.PiecesOfJoin` | library/src/monerod_client/authentication.rs:194-207 | such texts are recovered from their join, untrimmed |
| `HeaderSplitting.TrimTakesPadding` | library/src/monerod_client/authentication.rs:203 | trimming takes off surrounding white space and no more |
| `HeaderSplitting.TrimIs` | library/src/monerod_client/authentication.rs:203 | of any text trimming leaves a stretch with only white space before and after it and none at its ends |
| `HeaderSplitting.SpacesAre` | library/src/monerod_client/authentication.rs:203 | white space is the 25 characters with the Unicode White_Space property |
| `HeaderSplitting.OutsideIff` | library/src/monerod_client/authentication.rs:199-202 | a position is outside quotes exactly after an even number of single and an even number of double quotes |
| `InvoiceIdCodec.PackKeepsOrder` | library/src/invoice.rs:400-408 | packing an id into 128 bits preserves and reflects the lexicographic order of ids |
| `InvoiceIdCodec.UnpackPack` | library/src/invoice.rs:514-544 | unpacking undoes packing |
| `InvoiceIdCodec.PackUnpack` | library/src/invoice.rs:514-544 | packing undoes unpacking: every 128-bit number is the packing of an id |
| `InvoiceIdCodec.ToU128` | library/src/invoice.rs:514-524 | filling the byte array yields the packed number |
| `InvoiceIdCodec.FromU128` | library/src/invoice.rs:526-544 | slicing the bytes yields the unpacked id |
| `InvoiceIdCodec.DecodeEncode` | server/src/server/api/types/invoice_id.rs:23-27 | decoding undoes encoding for every byte string |
| `InvoiceIdCodec.AlphabetIs` | server/src/server/api/types/invoice_id.rs:25 | the 64 symbols are those of the URL-safe alphabet of RFC 4648, each standing for its position, and no other character is one |
| `InvoiceIdCodec.EncodeDecode` | server/src/server/api/types/invoice_id.rs:46-49 | encoding undoes decoding on every accepted text |
| `InvoiceIdCodec.ParsePrint` | server/src/server/api/types/invoice_id.rs:23-64 | parsing a printed id yields it |
| `InvoiceIdCodec.PrintParse` | server/src/server/api/types/invoice_id.rs:46-64 | printing the id of an accepted text yields the text |
| `InvoiceIdCodec.AcceptedIffPrinted` | server/src/server/api/types/invoice_id.rs:46-64 | exactly the printed ids are accepted, all of 22 symbols |
| `InvoiceIdCodec.RefusedFor` | server/src/server/api/types/invoice_id.rs:46-64 | each error is given exactly for the encodings of too many bytes, of too few, and for texts that encode nothing |

## Left out

- 64-bit wrap-around of amounts and heights: sums are unbounded; `Conservation.AmountPaidFits` says when that is the same.
- Debug builds: where a 64-bit subtraction underflows (a creation height of 0; a count that exceeds the height, possible
  only for a window down to height 0 with every link broken) they panic; the model follows the wrapping result.
- Ownership checking, subaddress derivation and unblinding: cryptography of a foreign library, here data and functions
  given from outside; a failing ownership check is not modelled.
- Runs that mix failed scans with creations and removals: failed scans are taken as an uninterrupted series.
- Failing saves of single invoices, and failures while iterating the store: a scan saves all its updates or none.
- Creations and removals in the middle of one scan: events are atomic with respect to scans, so a removal and
  re-creation of an id between an invoice's update and its save is not covered.
- A `block_transactions` request that returns fewer transactions than the block lists.
- BlockCaching.CountCoversIff: against one chain, with hashes that identify contents.
- BlockCaching.CountCoversAgainIff: against one chain, with hashes that identify contents.
- Ledger invoices dated 0: the ledger theorems are about invoices with a positive creation height.
- Scanner.Scanner.Scan: runs the block scan before the pool scan; all other interleavings are covered by
  `Concurrency.InterleavedScanIsErrorFree`.
- PaymentGateways.PaymentGateway.NewInvoice: runs in one step; concurrent creations and removals are the events of
  `Ledger`.
- PaymentGateways.PaymentGateway.constructor: requires stored invoices of one account on distinct derived addresses.
- Publishing.Publisher.Publish: no subscription changes while it runs; a full channel, on which the source waits, is not
  distinguished from an open one.
- BlockCaching.UpdateAgreesWithChain: assumes that a hash identifies its block's contents.
- InvoiceIdCodec.RefusedFor: the base64 library's own error details are one value.
- HeaderSplitting.SplitHeader: positions count characters, not bytes.
- `find_string_value`, `parse_header`, digest computation and the ordering of authentication parameters.
- Sqlite and Sled stores (but for the meaning of the exact subaddress test), serialisation, flushing.
- RPC and HTTP transport, the server, the callback queue, the gateway's thread lifecycle and builder.
- Floating-point amounts, payment URIs, display formats, configuration and logging.
