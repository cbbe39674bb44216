# Verification of cryptosweep

This project models cryptosweep, a cron program that finds USDC deposits on six EVM chains, sells
each one on an exchange and withdraws the proceeds to a bank, and it proves properties of that model
in Dafny 4.11. `dafny verify dfyconfig.toml` checks all of it.

## What is modelled

One run loads a state file (a frontier block per chain, a dedup set of transaction hashes, audit
records), scans every chain for every configured address, filters what it finds, passes eligible
deposits through a bounded channel to a worker that liquidates five at a time, merges everything into
the state, prunes records older than 90 days, and replaces the file. The model has three layers.

* **The scan** (`Explorer`, `ChainResults`, `Discovery`, `CleanRuns`). The chunk loop is a method over 64-bit block
  numbers with saturating arithmetic, against a node that answers exactly or fails, request by
  request. `ScanSpec` and `RunChain` say what one address and one chain report and send.
* **The pipeline** (`Worker`, `Pipeline`, `Concurrency`, `MoneyLedger`). Scans, channel, worker and jobs are a
  transition system; a schedule is any sequence of steps, and a step that is not enabled changes
  nothing. The exchange answers each call in any way.
* **Runs over time** (`Persistence`, `Orchestrator`, `Runs` and the modules on top of it). `RunOnce`
  takes the state file and a history that no run can see to the next; a run may end with its state
  saved, with a failed save, or killed at any point. `RunProgram` is the imperative program on the
  mutable state and file, from the chunk loop through the scans and chains to merge, prune and save,
  proved to do to the file what `RunOnce` does. The concurrent part in its middle is the transition
  system itself, run along a schedule.

Chain contents are a function from address and block to transfers. Two assumptions on them appear as
hypotheses where they are needed: a block that is final at a run's height (as deep as the configured
confirmations) shows that run the fixed contents `canon`, while blocks above may show anything, and
something else in every run; and, for the results that count money, a transaction makes one non-dust
transfer. Amounts are integers in millionths, times are nanoseconds since 1970, clock readings are
arbitrary values of the environment.

"Liquidated" means that a liquidation has finished and has a result, Initiated or Failed: the program
treats both alike and tries neither again. What was sold and withdrawn is the subject of `MoneyLedger`.

## Main results

* **Nothing is lost**, over any runs with any failures, kills and failed saves: by transaction without
  further hypotheses (`NoDepositLost`), and transfer by transfer when transactions make one transfer
  each (`NoTransferLost`). Without that, `LiquidatedItselfIff` says which transfers get a liquidation.
  Both count from the run in which an address was added; `AddedAddressIff` says what that loses.
* **Nothing is liquidated twice** by saved runs, whatever fails in between (`SavedNeverRepeated`), nor
  sold or paid out twice (`SoldAndPaidOnce`). What the dedup set holds after any history (`InDedupIff`)
  decides what is sent again (`SentIffNotKept`, `SentAgainIffUnsaved`, `ForgottenSentAgainIff`).
* **Value is conserved**: the ledger is, transfer by transfer, what saved runs have scanned and what the
  unsaved ones liquidated (`LedgerIsWhatWasScanned`); the former is everything from the start block up
  to the frontier and what was scanned ahead of it (`ValueConserved`). Accepted withdrawals over all runs
  are the ledger's Initiated proceeds (`PayoutsInLedger`).
* **The pipeline** never sticks, always ends, loses and repeats nothing, keeps every job's calls in
  order and the books balanced in every interleaving, and leaves the state a sequential pass would
  leave. It runs five jobs at once when there are five (`CanBeFull`), keeps the order of sends, and
  settles every job as the exchange answers (`FinishedJobsSettled`), so that what the frontier passes
  reaches the bank when the exchange accepts (`PassedReachesBank`).
* **One run without outages** sends and records exactly what the configuration asks for (`SentExactly`,
  `RecordsItsFloor`); what holds a frontier back is a failed request right after it (`HeldBackByOutage`).
* **Catching up, frontier bounds, and when a failure is reported** (`ReportedIffUnheard`) over whole
  histories.

## Where the documentation promises something else than the code does

The model follows the code.

* README.md:267 says a deposit is never liquidated twice "even across crashes". The dedup set is only
  written at the end of a run. `LiquidatedTwiceUnlessSaved` gives a history of two runs, the first of
  which fails to save or is killed, in which one deposit is liquidated twice, and sold twice if the
  exchange accepts. `SentAgainIffUnsaved` says for the run directly after, and `SentIffNotKept` for every
  later one, that a saved run is exactly what prevents it, as long as none prunes the hash. The same
  results are about README.md:70, "every run is idempotent".
* Deposits are told apart by transaction hash alone (src/orchestrator.rs:350-356), so not every deposit
  is liquidated. Of two transfers of different amounts that one transaction makes to one address the
  second never is (`SecondTransferLost`, `SecondTransferNeverLiquidated`); when it repeats a transfer of
  the same amount, saved runs liquidate one of them (`RepeatedTransferLost`,
  `RepeatedTransferLiquidatedOnce`); and when one transaction pays two watched addresses, the second
  loses its transfer if its scan fails in the run that liquidates the first's (`SecondAddressLost`).
  `LiquidatedItselfIff` is the exact condition: some run scans the transfer's
  block while its hash is not in the dedup set, and it comes first of its transaction there.
* README.md:268 promises a full audit trail. Records are keyed by date and eight hash characters, and a
  second record with the same key replaces the first (`RecordLostInOneRun`, `RecordLost`); the trail of
  a pass is complete exactly when no two different records share a key (`AuditCompleteIff`), and
  `StillRecordedIff` says which records any history leaves in the file.
* src/types.rs:218 says audit records are kept indefinitely, and src/types.rs:222-223 that a hash once
  processed is never processed again. Both are pruned after 90 days. `RecordPruned` is a history at whose
  end a record is gone, and `StillRecordedIff` the exact condition. src/persistence.rs:64-65 gives the
  reason it thinks pruning a hash safe; `ForgottenSentAgainIff` is the exact condition: the block must
  be strictly behind the one scans restart from, because they restart at that block itself.
  `LiquidatedTwiceAfterPruning` is a history of saved runs in which it is not, because another address
  of the chain never gets anywhere and holds the frontier back.
* src/config.rs:48-53 speaks of a last seen block per chain and address. It is per chain, so an address
  added later is not scanned from the start block (`AddedAddressNotScanned` is a history). Exactly the
  transfers to it that were not behind the frontier when it was added are liquidated in time
  (`AddedAddressIff`); the others never are (`BehindForGood`).
* src/types.rs:227 says the frontier is updated on every successful poll. One address without any
  progress keeps the whole chain's entry as it was (`TotalRecords`, `FrontierAfter`).
* README.md:3 counts five chains, the code six.

## Model

| member | source | states |
|---|---|---|
| `Explorer.FetchUsdcReceives` | src/explorer.rs:170-232 | Wherever the chunk loop halts, it returns what one query over the blocks it got through returns, or an error without progress; for windows that end below 2^64 - 1 its requests tile the window, only the last can have failed, and a full scan makes ceil(window / size) of them |
| `Explorer.ReceivesMeaning` | src/types.rs:340-344 | A receive is reported exactly when its transfer is on chain in its block within the inclusive range |
| `Explorer.TileCount` | src/explorer.rs:188-197 | Consecutive requests cut at the chunk size that reach the end of the window are ceil(window / size) many |
| `Explorer.HaltsIff` | src/explorer.rs:189-197 | The chunk loop ends exactly when the window ends below 2^64 - 1 or one of its requests fails |
| `Explorer.FetchMeaning` | src/types.rs:345-350 | An error means that the very first request failed; success means the frontier is at least the first chunk's end, at most the window's end, and the receives are those up to it; where it stops short, the next request failed, so without outages it is the window's end |
| `ChainResults.MonoidLaws` | src/orchestrator.rs:148-195 | Combining scan results is associative with EMPTY as identity |
| `ChainResults.TotalAppend` | src/orchestrator.rs:179-195 | Folding two lists of results and combining is folding both together |
| `ChainResults.TotalRecords` | src/orchestrator.rs:172-195 | The fold records m exactly when there is a result, all results have frontiers, and m is their minimum and not the sentinel |
| `ChainResults.TotalConcats` | src/orchestrator.rs:185-195 | Hashes and errors of the fold are those of the parts in order |
| `Discovery.SendEligible` | src/orchestrator.rs:305-315 | The loop with its running dedup set sends exactly the first eligible receive of every hash, in order, and reports exactly their hashes |
| `Discovery.AddressScan` | src/orchestrator.rs:276-326 | The scan of one address reports and sends what ScanSpec says, including the stale-only error and the capped frontier, and asks for at most 1,000 blocks at a time on Monad and 10,000 elsewhere |
| `Discovery.FloorAgrees` | src/orchestrator.rs:317-361 | The saturating depth filter and the saturating confirmation floor draw the same line |
| `Discovery.SelectMeaning` | src/orchestrator.rs:308-356 | A deposit is selected exactly when it comes from a receive that is eligible with no earlier eligible receive of the same hash |
| `Discovery.SelectDistinct` | src/orchestrator.rs:306-315 | One scan sends no hash twice |
| `Discovery.SentComesFromChain` | src/orchestrator.rs:331-393 | Everything sent is a non-dust transfer in a final block of the scanned range, new to the dedup set, with the address, payment method and timestamps of its scan |
| `Discovery.SentIff` | src/orchestrator.rs:331-393 | A hash is sent exactly when the fetch progressed, the hash is new, and a final non-dust transfer in the scanned range carries it |
| `Discovery.SentItselfIff` | src/orchestrator.rs:305-356 | A scan sends a transfer itself, and not just another one of its transaction, exactly when its hash is new, the scan reached its block while that was final, and it is the first non-dust one of its transaction there |
| `Discovery.CheckChain` | src/orchestrator.rs:224-266 | Checking one chain address by address reports and sends what RunChain says |
| `Discovery.RecordedMeaning` | src/orchestrator.rs:247-325 | A recorded frontier is at most the confirmation floor and at most what every address was scanned through |
| `Discovery.RecordedIff` | src/orchestrator.rs:172-325 | A pass records frontier m exactly when height and restart block are known, every address's fetch got somewhere, and m is the least, over the addresses, of the fetched frontier and the confirmation floor |
| `Discovery.FrontierKeptIff` | src/orchestrator.rs:317-323 | A recorded frontier is not below the stored one exactly when the confirmation floor is not |
| `CleanRuns.SentIsDeep` | src/orchestrator.rs:331-393 | Whatever fails, nothing is sent from a block less deep than the configured confirmations (14 when there are none), before the restart block, or for less than 1,000,000 millionths |
| `CleanRuns.SentExactly` | src/config.rs:119-134 | Without outages a scan sends a hash exactly when it is new and a transfer of at least 1,000,000 millionths carries it in a block at or after the restart block and as deep as configured |
| `CleanRuns.HeldBackByOutage` | src/orchestrator.rs:317-323 | A recorded frontier is at most the height less the configured depth, and below that only if some address's request for the blocks right after it failed |
| `CleanRuns.RecordsItsFloor` | src/orchestrator.rs:317-323 | Without outages a run with an address records exactly the height less the configured depth |
| `CleanRuns.CleanRunRecords` | src/orchestrator.rs:118-126 | A saved run without outages stores that frontier with its merge time |
| `Worker.AdvanceStaysOnTrack` | src/cbworker.rs:66-134 | Run one await point at a time, a job passes through the states of the straight-line pipeline and adds only its own next calls |
| `Pipeline.AlwaysConserved` | src/orchestrator.rs:80-116 | In every reachable state each job is in one place, sent jobs are those queued, in flight and finished, at most 32 are queued and at most 5 in flight, and an exited worker has drained everything |
| `Pipeline.NeverStuck` | src/orchestrator.rs:83-116 | In every reachable state some step is enabled exactly when the worker has not exited, and no send can fail |
| `Pipeline.StepsDecrease` | src/cbworker.rs:30-40 | Every step decreases a weighted count of the work left |
| `Pipeline.SchedulesEnd` | src/cbworker.rs:30-40 | No schedule of enabled steps is longer than that count in its first state |
| `Pipeline.CanComplete` | src/cbworker.rs:30-40 | Every schedule extends to one after which the worker has exited |
| `Pipeline.AlwaysFaithful` | src/cbworker.rs:34-63 | In every reachable state jobs are at a stage of the sequential pipeline, finished ones have its result, and the calls seen for a job are those of its stage, in order |
| `Concurrency.SendNeedsRoom` | src/orchestrator.rs:80-102 | A scan's send goes through exactly when fewer than 32 deposits are queued, whatever other scans do |
| `Concurrency.StartNeedsRoom` | src/cbworker.rs:34-40 | The deposit at the head of the channel enters flight exactly when fewer than 5 are in flight |
| `Concurrency.JobsNeverWait` | src/cbworker.rs:34-40 | Any job in flight, at any place, can go on next, or be collected when it is finished |
| `Concurrency.ScansNeverWait` | src/orchestrator.rs:83-102 | Any scan can return and end, whatever the others do |
| `Concurrency.WithdrawalWaits` | src/cbworker.rs:98-105 | Between an accepted sell and its withdrawal a job passes through the wait for the sale to settle |
| `Concurrency.CanBeFull` | src/cbworker.rs:17-40 | For any deposits found, some schedule has five in flight at once and 32 queued, or as many as there are |
| `Concurrency.AlwaysInOrder` | src/orchestrator.rs:80-116 | In every reachable state the queued deposits are the last ones sent, in the order sent |
| `Concurrency.AlwaysSentInOrder` | src/orchestrator.rs:308-315 | In every reachable state each scan has sent the first part of what it found, in order, and has the rest left |
| `MoneyLedger.CallsAlwaysProper` | src/cbworker.rs:66-134 | In every reachable state a job has made at most one sell, within the limit and for its amount, and at most one withdrawal, after its own successful sell, of exactly its proceeds, to its own payment method |
| `MoneyLedger.FinishedJobsSettled` | src/cbworker.rs:66-134 | In every reachable state a finished job has asked for a withdrawal exactly when it was within the limit and its sell was accepted; its outcome is Initiated, with the order id, proceeds, transfer id and time answered, exactly when both were accepted, and else the failure of the step that was refused |
| `MoneyLedger.AlwaysShuffled` | src/cbworker.rs:34-40 | The global call trace holds the jobs' own calls and nothing else |
| `MoneyLedger.BooksBalance` | src/cbworker.rs:86-134 | At every moment the balance has moved by the proceeds sold and not withdrawn, and accepted withdrawals sum to the proceeds of Initiated outcomes |
| `Persistence.StateFile.Load` | src/persistence.rs:21-38 | Loading gives the saved state, or the empty one when there is no file; it fails exactly when the file is there and cannot be read or parsed |
| `Persistence.StateFile.Save` | src/persistence.rs:47-58 | Whatever step fails, the file holds either the whole new state or the whole old one |
| `Persistence.PruneStaleEntries` | src/persistence.rs:66-95 | The mutating prune does what the function Prune does to the state's value |
| `Persistence.PruneTwice` | src/persistence.rs:66-84 | Pruning at two cutoffs is pruning at the later one |
| `Persistence.NinetyDays` | src/persistence.rs:66-84 | A record of exactly 90 days stays and an older one goes; a hash stays exactly when no record older than 90 days has it; frontiers stay |
| `Persistence.PruneAgreesIff` | src/persistence.rs:60-84 | Pruning keeps every retained record's hash in the dedup set exactly when no dropped record shares a hash with a retained one; keys stay the records' ids |
| `Orchestrator.MergeChainResult` | src/orchestrator.rs:120-131 | Merging one chain's result has the effect of MergeChain |
| `Orchestrator.MergeLiquidationResults` | src/orchestrator.rs:133-137 | Merging the liquidations one by one has the effect of MergeLiquidations |
| `Orchestrator.DepositCheck` | src/orchestrator.rs:72-141 | The pass checks every chain, puts what the scans send through the pipeline, leaves the state AfterPass gives and returns all chains' errors in order |
| `Orchestrator.MergedFrontier` | src/orchestrator.rs:118-126 | A chain's entry is replaced exactly when its pass recorded a frontier |
| `Orchestrator.MergedRecord` | src/orchestrator.rs:133-137 | Under a key the merge leaves the last result with that key, or what was there |
| `Orchestrator.AuditCompleteIff` | src/orchestrator.rs:133-137 | All records, old and new, survive a merge exactly when no two different ones share a key |
| `Orchestrator.ResultsAreSequential` | src/cbworker.rs:34-63 | Any completed interleaving yields the results of scanning first and liquidating one by one, in some order, and has sent everything found |
| `Orchestrator.PipelineRefinesSequential` | src/orchestrator.rs:80-137 | Any completed interleaving leaves the dedup set and frontiers of the sequential pass, and its audit records when keys are distinct |
| `Runs.RunProgram` | src/main.rs:86-126 | Load, check, prune, save does to the state file what RunOnce does, failed saves and kills included; a file that cannot be loaded is left alone |
| `Runs.SendsMeaning` | src/orchestrator.rs:83-102 | A run sends exactly what the address scans of its chains send |
| `Runs.ResultsReflectSends` | src/cbworker.rs:44-63 | The results of a completed run match its sends one to one in everything the deposit decides |
| `Runs.ResultComesFromSend` | src/cbworker.rs:44-63 | Also in a run that is killed, every result is of a deposit that was found |
| `Completeness.DedupAfterPass` | src/orchestrator.rs:127-137 | A completed pass adds to the dedup set exactly the hashes it sent |
| `Completeness.DedupStaysHonest` | src/orchestrator.rs:127-137 | The stored dedup set holds only hashes that were liquidated, however the run ends |
| `Completeness.DedupAlwaysHonest` | src/orchestrator.rs:127-137 | In every history every stored dedup set holds only hashes that were liquidated |
| `Completeness.FrontierAfter` | src/main.rs:99-112 | The stored frontier of a chain changes exactly when a saved run recorded one |
| `Completeness.PassedMeansSent` | src/orchestrator.rs:247-325 | Every new hash of a non-dust transfer between the restart block and the recorded frontier is sent in that run |
| `Completeness.RunLosesNothing` | src/main.rs:86-112 | One run, however it ends, keeps it true that every transaction with a non-dust transfer behind the frontier has been liquidated |
| `Completeness.NoDepositLost` | src/orchestrator.rs:247-325 | Over any history of failures, kills and failed saves, every transaction with a non-dust transfer to an address watched since run k, in a block from a start block that had not been passed by then up to the stored frontier, has been liquidated; the frontier block counts when the height was at least the depth |
| `Completeness.FrontierBelowSomeFloor` | src/orchestrator.rs:317-323 | Every stored frontier is at most the confirmation floor of an earlier run |
| `Completeness.RunKeepsFrontier` | src/orchestrator.rs:317-323 | A run whose floor is not below the stored frontier does not lower it |
| `Completeness.FrontierNeverFalls` | src/orchestrator.rs:247-323 | Over any history in which floors do not fall, stored frontiers do not fall |
| `Completeness.HealthyRunAdvances` | src/explorer.rs:188-212 | A saved run whose first request succeeds for every address moves the frontier on by a chunk less one block, or to its floor |
| `Completeness.CatchesUp` | src/explorer.rs:188-212 | After n such runs, counted from any run, the frontier is n times that far from where that run restarted, or at its floor |
| `Coverage.CoversWithoutOutage` | src/orchestrator.rs:247-325 | Without outages a scan covers exactly the final blocks from its restart block on |
| `Coverage.PassedMeansScanned` | src/orchestrator.rs:247-325 | Over any history, every block from the start block on that the frontier has passed since run k was scanned by some saved run, for every address watched since then, when it was final |
| `Coverage.FrontierAboveStart` | src/orchestrator.rs:247-323 | While no floor is below the start block, no stored frontier is |
| `Coverage.NothingScannedBelowStart` | src/orchestrator.rs:247-252 | Then no run scans a block below the start block |
| `AtMostOnce.SendsDistinct` | src/orchestrator.rs:261-356 | One run sends no chain, address and hash twice when no address is configured twice, in whatever spelling |
| `AtMostOnce.AddressTwiceSendsTwice` | src/orchestrator.rs:261-356 | An address configured twice has its deposits sent once per entry |
| `AtMostOnce.SentIsNew` | src/orchestrator.rs:247-356 | Nothing sent is in the dedup set or strictly behind the frontier or the start block |
| `AtMostOnce.SavedNeverRepeated` | src/orchestrator.rs:305-356 | Over any history, failed saves and kills included, no chain, address and hash is liquidated by two saved runs: unconditionally until something is pruned, and after that when floors do not fall and saved runs prune only hashes strictly behind the frontier |
| `AtMostOnce.SavedNeverSentAgain` | src/orchestrator.rs:347-353 | And no later run, saved or not, sends what a saved run has liquidated |
| `AtMostOnce.NothingLiquidatedTwice` | src/orchestrator.rs:305-356 | Over any history in which all runs save, no chain, address and hash is liquidated twice: unconditionally until something is pruned, and after that when floors do not fall and only hashes strictly behind the frontier are pruned |
| `AtMostOnce.InDedupIff` | src/orchestrator.rs:127-137 | Over any history a hash is in the stored dedup set exactly when a saved run has sent it and no saved run from there on has pruned it |
| `AtMostOnce.NotSentWhileKept` | src/types.rs:220-224 | Over any history no later run sends what a saved run has sent, until a saved run prunes it |
| `AtMostOnce.SentIffNotKept` | src/orchestrator.rs:331-393 | Over any history, a run whose scan gets to a transfer's block sends its hash exactly when no earlier saved run has sent and kept it |
| `AtMostOnce.SentAgainIffUnsaved` | src/main.rs:99-112 | The run directly after, if it scans the address without an outage at no smaller height, whatever else it meets, sends a deposit again exactly when the run that sent it did not save |
| `AtMostOnce.ForgottenSentAgainIff` | src/persistence.rs:60-84 | A hash no longer in the dedup set is sent by a run without outages exactly when its block is not strictly behind the one the scan restarts from, frontier or start block |
| `AtMostOnce.BehindForGood` | src/config.rs:48-53 | While floors do not fall, what is behind a frontier is never sent by a later run, for any address |
| `TransferLedger.LedgerAlwaysSound` | src/cbworker.rs:44-63 | Every liquidation of any history, killed runs included, is of a non-dust transfer on chain, for its address and amount |
| `TransferLedger.RunLiquidatesItselfIff` | src/orchestrator.rs:305-356 | A completed run liquidates a transfer itself exactly when a scan covers its block, its hash is new, and it is the first of its transaction there |
| `TransferLedger.LiquidatedWithoutOutageIff` | src/orchestrator.rs:305-356 | Without an outage that is exactly when it is new, final, not before the restart block, and first of its transaction |
| `TransferLedger.LiquidatedItselfIff` | src/orchestrator.rs:305-356 | In a history a transfer is liquidated itself only if some run covers it with its hash new and it is first of its transaction, and exactly then when no run is killed |
| `TransferLedger.SecondTransferNeverLiquidated` | src/orchestrator.rs:350-356 | Of two transfers of different amounts on chain, of one transaction and to one address, at most one is ever liquidated, and none that is not the first, in any history |
| `TransferLedger.LiquidatedIffScanned` | src/orchestrator.rs:247-356 | With one transfer per transaction and no kills, a transfer is liquidated exactly when some run has scanned its block while it was final |
| `TransferLedger.NoTransferLost` | src/orchestrator.rs:247-325 | With one transfer per transaction, over any history every non-dust transfer in a block that the frontier has passed while its address was watched has a liquidation of its own |
| `TransferLedger.AddedAddressIff` | src/config.rs:48-53 | With one transfer per transaction: of the transfers behind the frontier to an address added before run k, exactly those that were not behind it then are liquidated, while floors do not fall |
| `TransferLedger.SavedLiquidatedIff` | src/orchestrator.rs:247-356 | With one transfer per transaction, over any history the saved runs have liquidated a transfer exactly when one of them has scanned its block while it was final |
| `TransferLedger.RepeatedTransferLiquidatedOnce` | src/orchestrator.rs:350-356 | However often a transaction makes a transfer to one address, the saved runs of a history together liquidate at most one, on the conditions of SavedNeverRepeated |
| `ValueConservation.LedgerIsWhatWasScanned` | src/orchestrator.rs:118-137 | When transactions make one transfer each, final blocks stay, and saved runs have distinct addresses and prune only behind the frontier while floors do not fall (or nothing): as multisets, the transfers liquidated for an address are the chain's non-dust transfers in the blocks that saved runs have scanned, and what unsaved runs liquidated |
| `ValueConservation.ScannedFromStart` | src/orchestrator.rs:247-325 | With start blocks at s and no floor below s, the scanned transfers are all from s up to the frontier and those at or above it that were scanned ahead |
| `ValueConservation.ValueConserved` | src/orchestrator.rs:118-137 | On the same conditions, with start blocks at s and no floor below s: what was ever liquidated for an address is worth its non-dust transfers from the start block up to the frontier, plus exactly those at or above the frontier that a saved run scanned, plus what unsaved runs liquidated, which is nothing when all save |
| `MoneyHistory.RunCallsProper` | src/cbworker.rs:66-134 | In every run, killed or not, the calls made for one chain, address and hash are at most one sell within the limit and one withdrawal of its proceeds, and there are none for what was not sent |
| `MoneyHistory.SoldAndPaidOnce` | src/cbworker.rs:66-134 | Over any history, all calls that saved runs make for one chain, address and hash are together at most one sell and one withdrawal of its proceeds, on the conditions of SavedNeverRepeated |
| `MoneyHistory.PayoutsInLedger` | src/cbworker.rs:86-134 | Over any history the accepted withdrawals of all runs sum to the Initiated proceeds in the ledger, and what killed runs had paid out without collecting the result, which is nothing without kills |
| `MoneyHistory.SentIsPaidOut` | src/cbworker.rs:66-134 | In a completed run with an exchange that accepts, every deposit sent within the limit has an accepted withdrawal of its proceeds to its payment method and an Initiated record that describes it |
| `MoneyHistory.PassedReachesBank` | src/main.rs:86-112 | With one transfer per transaction and an exchange that accepts, over any history of other failures every transfer within the limit that the frontier has passed while its address was watched has been sold and paid out |
| `Examples.LiquidatedTwiceUnlessSaved` | README.md:267 | A history of a run that fails to save or is killed and one that saves, in which one deposit is liquidated twice, and sold twice by an exchange that accepts |
| `Examples.LiquidatedTwiceAfterPruning` | src/types.rs:220-224 | A history of three saved runs in which pruning makes one deposit liquidated twice |
| `Examples.SecondTransferLost` | src/orchestrator.rs:350-356 | A saved run that passes two transfers of one transaction to one address and does not liquidate the second |
| `Examples.RepeatedTransferLost` | src/orchestrator.rs:350-356 | A saved run that passes a transfer made twice by one transaction and liquidates it once |
| `Examples.SecondAddressLost` | src/orchestrator.rs:350-356 | Two saved runs that pass a transfer to a watched address and do not liquidate it, because its transaction's transfer to another address came first |
| `Examples.RecordLostInOneRun` | src/types.rs:166-172 | A saved run that liquidates two deposits and leaves one audit record |
| `Examples.AddedAddressNotScanned` | src/config.rs:48-53 | Two saved runs, the second with an address added, that pass a transfer to it after the start block and never send it |
| `Examples.RecordPruned` | src/types.rs:216-218 | Two saved runs 100 days apart, after which a record of the first is gone |
| `Silence.ReportedIff` | src/orchestrator.rs:224-303 | A pass reports an error for a chain exactly when one of its failures was met while the chain's data were stale |
| `Silence.UpdatedAtLastRecord` | src/orchestrator.rs:121-126 | The stored poll time is the merge time of the last run that stored a frontier for the chain |
| `Silence.SilentOnlyWhenRecent` | src/orchestrator.rs:212-303 | If a chain fails and the run does not report it, the last run that stored its frontier did so at most six hours before the failure |
| `Silence.ErrorsExactly` | src/orchestrator.rs:224-303 | The errors of a pass are exactly the failures met at a stale moment, each naming the chain's height or the address whose fetch failed |
| `Silence.StaleIffUnheard` | src/orchestrator.rs:212-219 | Over any history a chain's data are stale exactly when no run has stored a frontier for it, or the last that did merged more than 6 * 3,600 seconds before |
| `Silence.ReportedIffUnheard` | src/orchestrator.rs:212-303 | Over any history a run reports a chain exactly when one of its failures there came at such a time |
| `Silence.QuietWithinSixHours` | src/orchestrator.rs:235-303 | A run whose failures on a chain all come within six hours of the last stored frontier's merge reports nothing for it |
| `AuditKeys.KeyOrder` | src/types.rs:166-172 | For four-digit years, keys compare as processing day and then hash prefix, and are equal exactly when both are |
| `AuditKeys.DateIsDayNumber` | src/types.rs:166-172 | The date of day n is the Gregorian date n days after 1 January 1970, by leap years and days of months passed |
| `AuditKeys.KeyText` | src/types.rs:166-172 | A key is the eight digits YYYYMMDD of the processing date, a dash, and the first eight characters of the hash |
| `AuditKeys.AuditTrailIsChronological` | src/types.rs:211-214 | Records in key order are in order of their processing day |
| `AuditTrail.RecordsReproduceSends` | src/cbworker.rs:44-63 | The deposits described by a completed run's records are exactly those it sent, in every field |
| `AuditTrail.KeysAlwaysIds` | src/types.rs:86-91 | In every state file of every history each record is under the key made from its own date and hash |
| `AuditTrail.AlwaysChronological` | src/types.rs:211-214 | In every state file of every history records in key order are in order of their processing day |
| `AuditTrail.SavedRunAgreesIff` | src/persistence.rs:60-84 | A saved run keeps audit records and dedup set in agreement exactly when its pruning drops no record that shares a hash with a retained one |
| `AuditTrail.StillRecordedIff` | src/orchestrator.rs:133-137 | Over any history, the state file holds a record exactly when some saved run wrote it last under its key and no saved run since has written that key or pruned it |
| `AuditTrail.RecordLost` | src/types.rs:166-172 | Of two records of one day whose hashes begin with the same eight characters, no state file of any history holds both |

## Left out

- DepositCheck: takes the interleaving of scans, channel and jobs as a schedule, because which one happens is up to the async runtime; the results are for every schedule.
- AddressScan: does not model a failing channel send, because NeverStuck proves that no send can fail.
- FetchUsdcReceives: does not count its requests on a window that ends at 2^64 - 1, because the last one is repeated there until it fails (HaltsIff); chain heights are below that number.
- KeyOrder: years have four digits, because later ones are printed with a sign and more digits.
- The text of addresses: an address is the account it names, so two spellings of it are one address configured twice (AddressTwiceSendsTwice).
- The sender that a chain holds while it fetches its height, before it has address scans: nothing is sent in that time.
- Exchange requests, their signing and their JSON: a sell or withdrawal succeeds or fails with any result.
- Telegram messages: their outcome changes nothing; the texts of errors are values of a datatype.
- RPC retries, URLs, log decoding, a decoding error (it is one more failing request), and address parsing, which validated configuration rules out.
- Configuration loading and validation.
- JSON encoding of the state, real files and the file lock: runs follow one another, and the file is replaced at once.
- Decimal rounding: amounts are integers in millionths.
- Logging and the settle delay's length.
