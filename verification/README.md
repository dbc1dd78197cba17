# Verification of the gateway's state-keeping core

A Dafny model of the parts of the AvN gateway that keep state between requests, with proofs about whole runs of it:

- **Transactions** (`Sequences`, `Strings`, `Numbers`, `Decimals`, `SortedSets`, `LuaCommands`, `TxStore`, `TxProtocol`,
  `TxRecords`, `Fairness`, `Sending`, `Nonces`): the Redis status records, request pointers and the three sorted sets of
  the lease-based scheduler; the two Lua commands as array loops; sending with retries; relayer nonces.
- **Lowers** (`BlockIds`, `LowerMerge`, `LowerStore`, `NumericKeys`, `LowerIndexer`, `LowerBatches`, `LowerMeaning`,
  `LowerHistory`): the paging loop over the indexer with its zero-padded text cursor, the merge of several events per
  lower, the sender and recipient indexes, deletions and failure marks.
- **Cross-chain cursors** (`Lifts`, `Claims`, `Autolower`, `PagedScan`): the lift window, its queued batches and the
  guarded cursor, the two claim cursors, the autolower watermark with its retry set, the paged scan of ready lowers.
- **Queue** (`TxQueue`), **votes** (`Votes`) and **relayer fees** (`Fees`).

A `MULTI` or a Lua script is one atomic step; a read that decides on a later write is a step of its own in `TxProtocol` and
`Lifts`. Clocks, chain heads, replies and failures are inputs. Runs are sequences of steps in any interleaving; a main result
holds for every run that meets its stated assumptions. Where the code does not keep what its comments or its readers expect,
the model follows the code, and a lemma gives the exact condition:

- an empty lift window moves the cursor past a block nobody scanned (`Lifts.CursorLeavesNothingBehind`,
  `Lifts.EmptyWindowSkipsABlock`, `Lifts.EmptyWindowExample`), and two writers whose reads of the cursor come before both
  writes can take it back (`Lifts.WriteLowers`, `Lifts.CursorGoesBack`);
- the autolower claim cursor can pass an unseen claim after a failed query or when it is ahead of the chain
  (`Claims.AutolowerCursorMissesNothing`), and a claim can raise the watermark past a lower that is not ready yet, whether
  the lookup ends or dies after that write (`Autolower.NotReadyMayBeDropped`, `Autolower.BrokenLookupDropsNothing`,
  `Autolower.StaysEligible`);
- confirmations are compared as decimal texts, so a lower that lacks one of ten is closed (`Autolower.TextComparison`,
  `Autolower.InvalidProofCloses`, `Autolower.TenAgainstNine`);
- a validating report whose write lands after a final report leaves a transaction that is never checked again
  (`TxProtocol.ReachableInv`, `TxProtocol.ResolvedStaysResolved`), and a registration or failure whose write lands after a
  send takes the request back to its placeholder (`TxProtocol.PointerSafety`, `TxProtocol.SentIsFollowed`,
  `TxProtocol.StaleWriteTakesBack`);
- where an index gains a digit past the sixth the padded cursor sorts backwards (`BlockIds.StepKeepsOrder`,
  `BlockIds.OverflowExample`), and an event with an unreadable lower id holds the paging loop
  (`LowerBatches.FaultlessRunReachesEnd`);
- a lookup by a recipient's address finds its lowers only in lower case (`LowerStore.RecipientFoundInLowerCase`,
  `LowerStore.CapitalsFindNoRecipient`);
- a lost nonce write after an accepted send, while a nonce is cached, has every further send refused until the cached one
  expires (`Nonces.LostCacheWrite`, `Nonces.LostCacheWriteBlocks`);
- a batch deletion can throw after messages were deleted (`TxQueue.DeleteMessages`);
- a transaction's generic fee never reaches a user, although the builder of the fee table ranks it above the user-wide one
  (`Fees.GenericFeeReachesNobodyElse`, `Fees.GenericFeeExample`), and the table and the single lookup differ for a user with
  a user-wide fee (`Fees.TableAgreesWithLookup`).

Assumptions that several results share: a placeholder hash belongs to one request id and to no sent transaction; reports
concern hashes the scheduler handed out; clocks do not run backwards; the node takes only an account's next nonce; the
indexer answers with the least ids that pass the filter and compares them byte by byte; its log only grows at the end.

`dafny verify dfyconfig.toml` checks the project.

## Model

| member | source | states |
|---|---|---|
| LuaCommands.SwapPairs | avn-connector/src/redis/index.ts:79-87 | the in-place loop exchanges the two cells of every pair and touches nothing else |
| LuaCommands.InsertScores | avn-connector/src/redis/index.ts:101-104 | the shifting inserts put one expiry before every member, members in order |
| LuaCommands.SwappedReplyMerges | avn-connector/src/redis/index.ts:78-91 | any array with the pairs of the scored reply exchanged, handed to ZADD, merges the selected members with their own scores into the target |
| LuaCommands.InterleavedLeasesMerge | avn-connector/src/redis/index.ts:98-108 | any array with an expiry before each member, handed to ZADD, merges one lease per member into the target |
| LuaCommands.AddZRangeByScore | avn-connector/src/redis/index.ts:76-95 | the command merges exactly the expired entries into the target and returns their number |
| LuaCommands.NextZSubset | avn-connector/src/redis/index.ts:97-112 | the command returns the first members in (score, name) order and enters each under the given expiry |
| TxStore.RedisClient.AddNewAvnTransaction | avn-connector/src/redis/index.ts:181-213 | a new request gets an AwaitingToSend record and a pointer; an existing hash changes nothing |
| TxStore.RedisClient.AddFailedAvnTransaction | avn-connector/src/redis/index.ts:215-250 | an existing record takes the failure without moving the pointer; otherwise record and pointer are made |
| TxStore.RedisClient.UpdateTransactionStatusToPending | avn-connector/src/redis/index.ts:252-281 | record, ALL entry and pointer change together |
| TxStore.RedisClient.ResolvePendingAvnTransactions | avn-connector/src/redis/index.ts:292-349 | reports apply in order; bad statuses are skipped, a final status is not replaced by Validating, text arguments end the call |
| TxStore.RedisClient.GetNextTransactionsToCheck | avn-connector/src/redis/index.ts:351-388 | one scheduling step on the three sets; the warning about differing counts cannot occur |
| TxRecords.RegistrationIsStored | avn-connector/src/redis/index.ts:189-212 | a new request awaits sending with empty sender fields, polling shows it, and no other record changes |
| TxRecords.FailureIsStored | avn-connector/src/redis/index.ts:215-250 | a failure is stored with its own reason, sender and nonce as far as known, an earlier result stays, and no other record changes |
| TxRecords.SendIsStored | avn-connector/src/redis/index.ts:265-280 | a send is stored as pending with its sender and nonce and scheduled under its time; an earlier result stays |
| TxRecords.ReportIsStored | avn-connector/src/redis/index.ts:299-347 | a report is stored with its own status, block, index and arguments, sender and all other records unchanged, if and only if it is final, or validating and the transaction has no result; text arguments end the request |
| TxRecords.LandingIsStored | avn-connector/src/redis/index.ts:329-339 | a validating write stores its report in whatever store it lands |
| TxRecords.ReportsAreShown | avn-connector/src/redis/index.ts:292-349 | after a resolution request polling shows the last report that applied, with the sender it had, and what it showed before if none did; by request and by transaction hash alike |
| TxRecords.PollFinds | avn-connector/src/avn.ts:170-185 | a transaction hash is looked up itself, any other id through its pointer |
| TxProtocol.ReachableInv | avn-connector/src/redis/index.ts:181-388 | over every interleaving of checks, writes, sends and scheduling calls: CHECKING and NEXT lie within ALL, ALL holds only Pending and Validating hashes and every Pending one, pointers lead to records, placeholders are never scheduled; every Validating hash is in ALL throughout if and only if no validating write lands after its hash has left ALL |
| TxProtocol.SequentialCallsKeepStep | avn-connector/src/redis/index.ts:181-388 | callers that finish one call before the next starts: ALL holds exactly the Pending and Validating hashes in every state reached |
| TxProtocol.ScheduleKeepsMembership | avn-connector/src/redis/index.ts:355-376 | a scheduling step changes no membership of ALL |
| TxProtocol.ResolvedStaysResolved | avn-connector/src/redis/index.ts:325-347 | a processed or rejected transaction is not handed out again unless it is sent again, and keeps a final status throughout if and only if no validating write for it, checked before, lands |
| TxRecords.RecordStays | avn-connector/src/redis/index.ts:181-349 | over any run a handed-out transaction keeps its whole record until it is sent again, reported finally, or a validating write for it lands |
| TxProtocol.ResolveAllIsARun | avn-connector/src/redis/index.ts:298-348 | a resolution request that nothing interrupts is an allowed run of its entries, check and write, up to the first that throws |
| TxProtocol.CallIsOperation | avn-connector/src/redis/index.ts:181-348 | a registration, failure or report whose check and write nothing separates is the operation of the client |
| TxProtocol.PointerSafety | avn-connector/src/redis/index.ts:181-281 | from registration on, a request has a pointer to a record; it stays put through a run if and only if the request is sent only as that transaction and, off its placeholder, no registration or failure checked before the registration lands; without one under way none will |
| TxProtocol.RegisteredIsFound | avn-connector/src/avn.ts:170-199 | once a registration is done, polling the request finds a record in every later state |
| TxProtocol.SentIsFollowed | avn-connector/src/redis/index.ts:181-281 | after a send the request leads to that transaction with its relayer and nonce, through any reports, failures and registrations, if and only if no registration or failure checked before the registration lands |
| TxProtocol.StaleWriteTakesBack | avn-connector/src/redis/index.ts:189-212 | an allowed run with a duplicate registration whose write lands after the send: the request is back at its placeholder |
| TxProtocol.AllowedRunExists | avn-connector/src/avn.ts:529-552 | the assumptions on callers can be met by a full life of a request |
| TxProtocol.CallReturnsSmallest | avn-connector/src/redis/index.ts:365-374 | a call returns at most 250 distinct unleased hashes, none of the unleased left out comes first, and none is left out below 250 |
| TxProtocol.EarlierTurnFirst | avn-connector/src/redis/index.ts:365-374 | a returned hash has an earlier turn than one left out, or the same turn and a smaller name |
| TxProtocol.LeaseExclusivity | avn-connector/src/redis/index.ts:351-376 | two returns of a hash without a final report between them are at least 5000 ms apart |
| TxProtocol.LateValidatingWrite | avn-connector/src/redis/index.ts:325-339 | a validating write, as it lands, keeps statuses and ALL in step if and only if the hash is then in ALL |
| TxProtocol.ValidatingReportOfAnyHash | avn-connector/src/redis/index.ts:325-339 | a validating report of any hash keeps statuses and ALL in step if and only if the hash is scheduled or already resolved |
| TxProtocol.LateValidatingWriteLosesResult | avn-connector/src/redis/index.ts:325-347 | a run with a final report between check and write: the transaction ends Validating and outside ALL |
| Fairness.CallAdvances | avn-connector/src/redis/index.ts:351-376 | a call that passes over a due transaction serves 250 of those ahead of it, and those ahead afterwards are the rest |
| Fairness.StepKeepsTurn | avn-connector/src/redis/index.ts:252-376 | no send, report, failure or expiry brings anyone in front of a due transaction or moves its turn |
| Fairness.BoundedWaiting | avn-connector/src/redis/index.ts:252-388 | with k ahead of it a due transaction is handed out or resolved within k/250 + 1 calls |
| Fairness.LiveTransactionIsServed | avn-connector/src/redis/index.ts:252-388 | the same bound in the callers' runs for every scheduled or pending transaction whose turn has come by the clock; only being sent again, and others' sends in the very millisecond of its turn, are excluded |
| Fairness.LeaseEnds | avn-connector/src/redis/index.ts:351-376 | a hash handed out at some time and not served or sent again since has its turn exactly 5000 ms later, is unleased from then on, and is served again within k/250 + 1 calls made from then on |
| Fairness.AloneAgainAfterLease | avn-connector/src/redis/index.ts:351-376 | alone, a hash is handed out again by a call exactly from 5000 ms on |
| Fairness.SentTakesTurn | avn-connector/src/redis/index.ts:265-279 | the turn of a transaction that is sent is its sending time |
| Fairness.NextHoldsDue | avn-connector/src/redis/index.ts:361-365 | NEXT holds exactly the unleased hashes, each under its turn |
| Fairness.CheckingHoldsLeases | avn-connector/src/redis/index.ts:355-376 | CHECKING holds exactly what is leased after a call, and only an expired lease changes a score in ALL, to its expiry |
| Sending.SignAndSend | avn-connector/src/avn.ts:438-527 | what a call leaves of the store and the cached nonce and what it returns, for every way an attempt can end, a missing key, a failed nonce lookup and an unrecorded failure included |
| Sending.AttemptIsShown | avn-connector/src/avn.ts:446-524 | a registered request leads to the pending transaction if and only if the node took it and both writes succeeded; otherwise its pointer stays, and polling shows the failure and its nonce if one was recorded at the placeholder, else what it showed before |
| Sending.RetriesAreShown | avn-connector/src/avn.ts:437-527 | over any retries polling shows the last success, else the last recorded failure, else what it showed before |
| BlockIds.ParseGenerated | avn-connector/src/lowers/utils.ts:182-192 | a saved cursor is read back as the position it was made from, for every block and index |
| BlockIds.CursorOrder | avn-connector/src/lowers/loweringV2.ts:35-45 | below block 10^10 and index 10^6, the text order of cursors is the order of positions |
| BlockIds.FilterByPosition | avn-connector/src/lowers/utils.ts:64-73 | an event passes the id filter if and only if its position is at or after the cursor's |
| BlockIds.StepKeepsOrder | avn-connector/src/lowers/loweringV2.ts:53-59 | for every block and index, the cursor stepped over an event sorts after it if and only if the next index has at most six digits or as many as the event's; otherwise it sorts before it |
| BlockIds.OverflowExample | avn-connector/src/lowers/loweringV2.ts:53-59 | stepping over index 999999 sorts before that event, stepping over 1000000 after it |
| LowerMerge.MergeAssociative | avn-connector/src/lowers/utils.ts:198-224 | merging events of one lower is associative |
| LowerMerge.MergeRepeats | avn-connector/src/lowers/utils.ts:198-224 | an event merged before changes nothing when it comes again, at once or later |
| LowerMerge.MergeProgress | avn-connector/src/lowers/utils.ts:125-151 | ranks only grow, a failed or ready name is kept, addresses change only from missing |
| LowerMerge.FoldTakesBest | avn-connector/src/lowers/utils.ts:18-24 | a fold of events has the name and the claim proof of the first event of highest rank |
| LowerMerge.FoldTakesFirstArgs | avn-connector/src/lowers/utils.ts:136-151 | a fold of events has the addresses and amount of the first event that is not missing all three |
| LowerMerge.RankOrder | avn-connector/src/lowers/utils.ts:18-24 | requested comes before lowered, lowered before ready or failed |
| LowerMerge.LostProofIsRepaired | avn-connector/src/lowers/utils.ts:211-220 | the next event of a ready lower whose proof was lost brings the proof back |
| LowerStore.RedisLowers.SetLowerById | avn-connector/src/redis/index.ts:504-512 | the lower and both index entries are written together |
| LowerStore.RedisLowers.DeleteLowerById | avn-connector/src/redis/index.ts:519-534 | the lower and its index entries go together; an unknown id changes nothing |
| LowerStore.RedisLowers.GetLowerIdsByAddress | avn-connector/src/redis/index.ts:536-544 | the ids an address sent or, if none, receives, as a scan of the store would find them |
| LowerStore.SetKeepsIndex | avn-connector/src/redis/index.ts:504-512 | a write that changes no present address keeps both indexes equal to the scan |
| LowerStore.DeleteKeepsIndex | avn-connector/src/redis/index.ts:519-534 | a deletion keeps both indexes equal to the scan |
| LowerStore.DeletedIsGone | avn-connector/src/redis/index.ts:519-534 | a deleted lower is gone from the store and from every address; every other lower and every other id of an address stays |
| LowerStore.RecipientFoundInLowerCase | avn-connector/src/redis/index.ts:536-541 | a lookup by a recipient that sent nothing finds its lower if and only if the address is written in lower case |
| LowerStore.CapitalsFindNoRecipient | avn-connector/src/redis/index.ts:536-541 | an address with capitals that sent nothing finds nothing |
| LowerIndexer.QueryIsSlice | avn-connector/src/lowers/utils.ts:60-93 | the answer at a cursor is the next stretch of the log from the cursor's position |
| LowerIndexer.AnswerSize | avn-connector/src/lowers/loweringV2.ts:9-70 | an answer has at most 50 events, and fewer only at the end of what the indexer shows |
| LowerIndexer.CollapseEvents | avn-connector/src/lowers/loweringV2.ts:73-110 | the first loop ends with the fold per lower and the last position, or fails if and only if some event throws |
| LowerIndexer.StoreLowers | avn-connector/src/lowers/loweringV2.ts:112-136 | the second loop merges the collapsed lowers in key order, all of them or those before a failing write |
| LowerIndexer.ProcessLowerEvents | avn-connector/src/lowers/loweringV2.ts:65-146 | a batch attempt, with every way it can fail yielding no position |
| LowerIndexer.BatchFailsExactly | avn-connector/src/lowers/loweringV2.ts:71-145 | a batch yields nothing if and only if it is empty, holds an unreadable id, or holds a ready lower while proofs cannot be fetched |
| LowerIndexer.BatchAdvances | avn-connector/src/lowers/loweringV2.ts:53-59 | a batch that went through moves the cursor strictly past everything it returned, and past nothing else |
| LowerIndexer.UpdateLowerData | avn-connector/src/lowers/loweringV2.ts:31-63 | the paging loop ends and equals the run of its batches, returning the text of the last position |
| LowerBatches.KnownIsFold | avn-connector/src/lowers/loweringV2.ts:78-110 | collapsing a list of events gives each lower the left fold of its own events |
| LowerMeaning.CollapsedTells | avn-connector/src/lowers/loweringV2.ts:78-110 | read off the events: a lower is listed if and only if an event is about it, with the token of its first event, the name of the first event of highest rank, the chain's proof exactly if that name is ready, and sender, recipient and amount of the first event carrying any |
| LowerMeaning.StoredTells | avn-connector/src/lowers/loweringV2.ts:112-136 | the same of a stored lower over all its events, however they were cut into batches |
| LowerMeaning.CoveredTells | avn-connector/src/lowers/loweringV2.ts:31-136 | the same of every stored lower that is covered up to a cursor, over the log up to there or further |
| LowerMeaning.LoweredThenReady | avn-connector/src/lowers/utils.ts:102-123 | lowered first and ready later: the lower is ready, with its proof |
| LowerMeaning.LostProofIsRestored | avn-connector/src/lowers/utils.ts:211-220 | any batch with an event of a ready lower whose proof was lost leaves it as if it had not been |
| LowerBatches.BatchSplit | avn-connector/src/lowers/loweringV2.ts:112-136 | however events are cut into batches, each stored lower is its old entry merged with the fold of all its events |
| LowerBatches.AnySplitAgrees | avn-connector/src/lowers/loweringV2.ts:112-136 | two ways of cutting one event list leave the same stored lowers |
| LowerBatches.ReplayIsIdempotent | avn-connector/src/lowers/loweringV2.ts:112-136 | a batch stored again, after any of its lowers were stored in any order, leaves what storing it once leaves |
| LowerBatches.CursorIsSafe | avn-connector/src/lowers/loweringV2.ts:11-63 | over all runs with failing batches, partial stores and lost cursors, each lower is the fold of a log prefix that reaches at least the saved cursor |
| LowerBatches.FaultlessRunCompletes | avn-connector/src/lowers/loweringV2.ts:31-63 | whatever failed before, a run without faults that meets no unreadable id from the cursor on leaves exactly the fold of the whole log |
| LowerBatches.UnreadableIdBlocks | avn-connector/src/lowers/loweringV2.ts:85-89 | no run, whatever its faults, passes an event whose lower id cannot be read |
| LowerBatches.FaultlessRunReachesEnd | avn-connector/src/lowers/loweringV2.ts:31-63 | a run without faults ends past the log if and only if every lower id from the cursor on can be read |
| LowerBatches.SavedRunStartsPastLog | avn-connector/src/lowers/loweringV2.ts:15-20 | after a saved run without faults the next one starts past the log if and only if every lower id from the cursor on could be read |
| LowerHistory.GetLower | avn-connector/src/lowers/loweringV2.ts:180-191 | a read marks a lower failed only below rank two, and returns what is stored |
| LowerHistory.MarkedAsFailed | avn-connector/src/lowers/loweringV2.ts:180-191 | a read that finds the dispatch failed names a lower that is not ready failed, and changes nothing else |
| LowerHistory.UpdateLowers | avn-connector/src/lowers/loweringV2.ts:15-21 | paging from the saved cursor, saving the new one, then deleting claimed lowers, as one history; no claimed lower is stored afterwards |
| LowerHistory.HistoryKeeps | avn-connector/src/lowers/loweringV2.ts:11-191 | over pages, deletions and failure marks: every event before the cursor is merged unless its lower was claimed, and the indexes equal the scan |
| LowerHistory.FromEmpty | avn-connector/src/lowers/loweringV2.ts:11-191 | the same of every history that starts with an empty store |
| LowerHistory.HistoryProgress | avn-connector/src/lowers/utils.ts:18-24 | whatever other lowers are deleted, a lower not deleted itself does not disappear, its rank does not fall, and a ready or failed name never changes |
| LowerHistory.ClaimedStaysAway | avn-connector/src/lowers/loweringV2.ts:164-178 | a lower deleted as claimed is gone, from its addresses too, and stays away in every later state if and only if no later page stores an event of it |
| LowerHistory.ClaimedAreDeleted | avn-connector/src/lowers/loweringV2.ts:172-175 | the lowers excused as claimed are exactly those whose deletion was carried out |
| LowerHistory.NewLowerIsFound | avn-connector/src/lowers/utils.ts:102-123 | a new lower is found under the account that lowered and under its recipient |
| Lifts.GetLiftEvents | avn-connector/src/tier1.ts:48-108 | the window, from the stored cursor or the maximal age back to the last block within size and confirmations, and exactly its eligible lifts; or the first block alone when the window is empty |
| Lifts.FinishScan | avn-connector/src/avn.ts:384-410 | the lifts the chain has not processed; only if there are none, and the end of the window is not behind what was read, the cursor becomes the block after it; a failing read or write throws |
| Lifts.ProcessLifts | avn-connector/src/avn.ts:413-435 | after the batch was sent, and if its end is not behind what was read, the cursor becomes the block after it; a send, read or write that fails is returned as the result |
| Lifts.LiftsFromBlock.Advance | avn-connector/src/avn.ts:426-430 | the guarded write after an earlier read: the block after the end if the guard passes, else no change; it lowers the cursor if and only if others raised it past the value written |
| Lifts.WriteIsAdvance | avn-connector/src/avn.ts:397-430 | the cursor write of every run is that guarded write |
| Lifts.FinishScanInRun | avn-connector/src/avn.ts:384-410 | in runs, the end of a scan queues what is left without touching the cursor, or is followed by that read and write, whatever others do before, between and after |
| Lifts.ProcessLiftsInRun | avn-connector/src/avn.ts:424-430 | in runs, a sent batch is followed by that read and write; a failed send changes nothing |
| Lifts.CursorLeavesNothingBehind | avn-connector/src/avn.ts:377-435 | over interleaved scans, repeated deliveries and separate reads and writes of the cursor: in every state every block below the highest value the cursor ever had was scanned and its eligible lifts processed or sent, if and only if no write comes from a scan with an empty window at a block not yet settled |
| Lifts.WindowsNeverSkip | avn-connector/src/tier1.ts:63-68 | runs in which every scan finds a confirmed block meet that condition |
| Lifts.WriteLowers | avn-connector/src/avn.ts:397-429 | whatever happens between a writer's read and its write, the write lowers the cursor if and only if its guard passes and the last value written in between is larger |
| Lifts.CursorGoesBack | avn-connector/src/avn.ts:396-401 | a run of two scans whose writes cross: the cursor goes from 181 back to 151 |
| Lifts.EmptyWindowSkipsABlock | avn-connector/src/tier1.ts:99-103 | a scan alone, from begin to cursor write, leaves everything behind the cursor settled if and only if its window held a block or the block at the cursor was settled already |
| Lifts.EmptyWindowExample | avn-connector/src/tier1.ts:99-103 | cursor and chain head at block 100, six confirmations: the cursor goes to 101 and block 100 was not scanned |
| Claims.CollectClaims | avn-connector/src/tier1.ts:110-134 | the claimed ids in order and the highest block among them |
| Claims.DeletionCursorMissesNothing | avn-connector/src/lowers/loweringV2.ts:164-178 | over all runs of calls, with failed queries, lagging heads and lost cursors, the deletion cursor never passes an unseen claim |
| Claims.DeletionCursorAdvances | avn-connector/src/lowers/loweringV2.ts:165-177 | a saved, answered call takes up every claim from the cursor to the chain head and moves the cursor to the last of them |
| Claims.AutolowerCursorMissesNothing | avn-connector/src/lowers/autolowering.ts:88-103 | over all runs of calls the autolower cursor has missed nothing if and only if each call that saved it was answered up to its first block or that block holds no claim |
| Autolower.RedisAutolower.GetAutolowers | avn-connector/src/redis/index.ts:592-606 | the live ids, with the expired ones purged |
| Autolower.RedisAutolower.GetLowersToClaim | avn-connector/src/lowers/autolowering.ts:78-105 | a lookup, complete or dying after any write of its removals and additions, the set and the lifetime key of one apart, or between the watermark and the block cursor, which is written last |
| Autolower.LookupReturns | avn-connector/src/lowers/autolowering.ts:81-96 | exactly the ready, unclaimed lowers above the watermark or live in the retry set, each with its own proof |
| Autolower.RetrySetAfterLookup | avn-connector/src/lowers/autolowering.ts:92-100 | after a complete lookup the retry set holds exactly what was returned and what was live and not claimed |
| Autolower.CursorsAfterLookup | avn-connector/src/lowers/autolowering.ts:95-103 | the watermark goes to the highest claimed id, the block cursor one past the last block checked, neither before its own write |
| Autolower.AddedOnce | avn-connector/src/redis/index.ts:576-585 | an id already in the retry set gets no new lifetime |
| Autolower.WatermarkDropsNothing | avn-connector/src/lowers/autolowering.ts:92-102 | every ready, unclaimed, eligible lower is returned and ends live in the retry set |
| Autolower.BrokenLookupDropsNothing | avn-connector/src/lowers/autolowering.ts:92-103 | a lookup that dies keeps an eligible, unclaimed lower eligible if and only if it died before the watermark was written or the lower is ready, live in the retry set, or above the watermark and every claimed id |
| Autolower.NotReadyMayBeDropped | avn-connector/src/lowers/autolowering.ts:92-102 | a lower not yet ready is eligible after a complete lookup if and only if it is live in the retry set or above the old watermark and every claimed id |
| Autolower.AttemptCloses | avn-connector/src/lowers/autolowering.ts:128-247 | an attempt closes a lower exactly when it is claimed, hopeless, too small, malformed or mined, confirmations compared as decimal texts |
| Autolower.ClosedOrTriedAgain | avn-connector/src/lowers/autolowering.ts:128-247 | every attempt either closes its lower or is one of the listed outcomes after which it is tried again |
| Autolower.ClosedIsRemoved | avn-connector/src/lowers/autolowering.ts:249-265 | closing takes the lower out of the retry set, and an attempt changes nothing else |
| Autolower.TextComparison | avn-connector/src/lowers/autolowering.ts:157 | the text comparison tells whether confirmations are missing if and only if both numbers have equally many digits or the shorter is at most the leading digits of the longer |
| Autolower.InvalidProofCloses | avn-connector/src/lowers/autolowering.ts:156-167 | when an invalid proof closes its lower although it only lacks confirmations, and when one that lacks none stays open |
| Autolower.TenAgainstNine | avn-connector/src/lowers/autolowering.ts:157 | ten required and nine provided closes the lower; nine required and ten provided never does |
| Autolower.StaysEligible | avn-connector/src/lowers/autolowering.ts:78-265 | over all runs in which it is not claimed, closed or past its lifetime, a lower is eligible in every state if and only if each lookup that wrote the watermark found it ready, live in the retry set, or above the watermark and every claimed id; the next lookup that finds it ready then returns it |
| Autolower.LiveStaysLive | avn-connector/src/lowers/autolowering.ts:81-103 | a lower live in the retry set stays there, ready or not, until it is claimed, closed or past its lifetime |
| Autolower.DroppedStaysDropped | avn-connector/src/lowers/autolowering.ts:78-105 | a lower that is not eligible any more is never returned again, over all runs |
| PagedScan.GetUnclaimedLowerProofs | avn-connector/src/avn.ts:776-816 | for any page size the scan ends with exactly the wanted ids, each with its own proof |
| TxQueue.ProcessMessages | avn-connector/src/sqsConsumer.ts:63-76 | the stretch of messages before the first that throws |
| TxQueue.DeleteMessages | avn-connector/src/sqsConsumer.ts:139-170 | each deleted entry is counted once over both attempts; it throws if and only if a call it makes is rejected or the first answer has failures and no list of successes |
| TxQueue.ProcessQueue | avn-connector/src/sqsConsumer.ts:38-49 | one poll, whichever calls fail, is an allowed step: it gets through the messages before the first that throws and deletes only some of those |
| TxQueue.StepEffect | avn-connector/src/sqsConsumer.ts:38-76 | after a poll what it got through has gone through, and exactly what it deleted has left the queue, the rest in order |
| TxQueue.FirstProcessedInOrder | avn-connector/src/sqsConsumer.ts:38-76 | messages first go through in queue order and none is deleted before it and all queued before it went through |
| Nonces.NoncesAreConsecutive | avn-connector/src/avn.ts:474-484 | over expiries, refused sends and lost cache writes the accepted nonces are consecutive; without lost writes the next send carries the expected one |
| Nonces.AcceptedIsCached | avn-connector/src/avn.ts:474-484 | an accepted send uses the next nonce and, if cached, leaves the one after it |
| Nonces.LostCacheWrite | avn-connector/src/avn.ts:483-484 | a lost nonce write keeps nonces in step if and only if none was cached |
| Nonces.LostCacheWriteBlocks | avn-connector/src/avn.ts:475-484 | otherwise every further attempt carries a used nonce and is refused until the cached one expires, and only its expiry brings nonces in step again |
| Votes.ProposalData.CheckVoteAndUpdateProposal | avn-gateway/vote-handler.ts:80-110 | a request counts exactly when the vote is active, signed, and the voter is known or has weight; a refused one changes nothing |
| Votes.ProposalData.ChangeVoteAndUpdateProposal | avn-gateway/vote-handler.ts:112-125 | a changed mind moves the whole weight to the other side |
| Votes.ProposalData.WeightVoteAndUpdateProposal | avn-gateway/vote-handler.ts:132-152 | a first vote adds its weight to one side, unless the weight is unknown or zero |
| Votes.CastKeepsTally | avn-gateway/vote-handler.ts:112-152 | scores stay the sums of the recorded votes, no record is zero, and a change conserves the total |
| Votes.RunDependsOnLastVotes | avn-gateway/vote-handler.ts:88-152 | after any ballots each record is the voter's weight with the sign of its last vote, and the scores are the sums |
| Votes.SameLastVotesSameProposal | avn-gateway/vote-handler.ts:88-152 | equal last votes give equal proposals |
| Votes.NeighboursCommute | avn-gateway/vote-handler.ts:88-152 | adjacent ballots of different voters commute |
| Fees.BuildFeesJson | avn-connector/src/db/index.ts:171-198 | the table over all rows and listed transactions |
| Fees.FeePrecedence | avn-connector/src/db/index.ts:179-195 | the builder's own order over rows of a user and of nobody: user-and-transaction fee, else the transaction's, else user-wide, else the relayer's default |
| Fees.AllFeesPrecedence | avn-connector/src/db/index.ts:241-264 | what a caller gets: the user's own fee for the transaction, else the user-wide one, else the relayer's default; without a user the generic fee, else the default |
| Fees.AllFeesLists | avn-connector/src/db/index.ts:179-197 | the table lists exactly the enabled transactions and those the user, or nobody, has a row for |
| Fees.GenericFeeReachesNobodyElse | avn-connector/src/db/index.ts:247-254 | a user's table has the builder's four levels if and only if the user has a row for the transaction, there is no generic one, or its fee is what the user has otherwise |
| Fees.GenericFeeExample | avn-connector/src/db/index.ts:247-264 | one generic row: without a user its fee, with a user the relayer's default |
| Fees.OrderDoesNotMatter | avn-connector/src/db/index.ts:241-264 | with one row per user and transaction, empty fees included, the table of a user or of nobody does not depend on row order |
| Fees.TableAgreesWithLookup | avn-connector/src/db/index.ts:211-265 | table and single lookup agree on an enabled transaction if and only if there is no user, the user has a row for it, no user-wide row, or one equal to the default |

## Left out

- ZAdd: scores are unbounded integers, not doubles.
- AddZRangeByScore: Lua's limit on unpacked values, past which the command fails for thousands of leases expired at once, is not modelled.
- ParseBlockId: text that JavaScript reads as a number in another notation (hexadecimal, exponents, blanks) counts as 0; the store only ever holds generated cursors.
- FormatLowerEvent: the conversion of hexadecimal amounts, and null apart from undefined, are not modelled; event names are the four of the query.
- Merge: the current event is a value; the source updates the object in place, and no other reference to it is read afterwards.
- Query: the sort of the reply is part of the answer; collation other than byte order and a log that is rewritten are not modelled.
- UpdateLowers: overlapping getLowers calls and the return of a deleted lower by a later event are not ordered further than in `HistoryKeeps`.
- SetLower: lowers without an address are filed under one key apart from all addresses.
- GetUnclaimedLowerProofs: the storage does not change during the scan, and the page size is any positive number instead of 1000.
- CursorLeavesNothingBehind: starts from a set cursor; the first window of an unset one reaches back a fixed number of blocks.
- StaysEligible: the processing lock and its expiry are not modelled.
- FirstProcessedInOrder: one FIFO message group, so a poll receives the first undeleted messages.
- SignAndSend: the call as nothing interrupts it; its check and write apart from each other are `TxProtocol`'s.
- ReportsAreShown: JSON texts of event arguments are opaque.
- GetLowersToClaim: dying while expired ids are purged, which removes nothing live, is not modelled.
- NoncesAreConsecutive: no other sender uses the relayer account, and no accepted transaction is dropped by the node; the payer nonce cache is not modelled.
- RunDependsOnLastVotes: votes are JSON booleans, which the handler does not check; weights are whole non-negative numbers fixed per voter; lost updates of the stored proposal and failed writes to it are not modelled.
- GetAllFees: the rows are those enabled for the relayer and currency, and a relayer default exists, as `getFees` checks first.
- TableAgreesWithLookup: one row per user and transaction is assumed, as in the other results on `GetAllFees`; the unique key allows rows with nulls to repeat.
- HTTP routes, Lambda handlers, signatures, address and SCALE encodings, webhooks, staking sums, logging and configuration.
- Split-fee batches and the reduction of indexer events to a status.
