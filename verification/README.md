# Serving core: a verified model

This project models the deterministic host code of the serving core and proves what it keeps:

- the **grouped KV cache** (`kv_cache.py`): block pools with reference counts, free queues, a
  hash index, rolling rings that detach on write, and pins for steps still on the device;
- the **scheduler** (`scheduler.py`): chunked prefill, preemption inside a walk over a stale
  snapshot, a shared token budget, and optimistic (async) progress that is reconciled later;
- the **pipelined engine** (`async_engine.py`): at most two steps in flight to a FIFO worker;
- the **draft-token logic** of the DeepSeek runner and the **persistent decode buffers** of the
  Qwen runner.

Each part comes in two layers. Where the source updates objects in place, a class with the same
fields does too, and every method is proved against a specification on values. What the source
is for is then proved about the specification: invariants of every run, refinement, exactness.

## How to read it

| file | content |
|---|---|
| `CacheTypes`, `Queues`, `RingArithmetic`, `Alignment` | shared values; queue filtering; ring slots; the least common multiple of page sizes |
| `GroupPool` | the specification of one grouped pool |
| `RefConservation`, `PoolOperations`, `GrowthExactness`, `GrowthEffect` | what every pool operation keeps; growth is exact, and what it does to a table |
| `GrowthQueue`, `QueueOrder` | which blocks growth hands out, and in which order blocks join and leave the free queue |
| `BlockPool`, `FreeQueue` | the pool and its linked free queue as the code updates them |
| `PrefixSelection`, `Manager` | the table a hit selects; all groups and partitions: atomic growth, longest prefix |
| `CacheDevice`, `CacheSystem` | whole runs of a pool, with a device that writes page contents while the host moves on |
| `Publication` | what publishing pages does to the index, entry by entry |
| `CacheConservation`, `CacheEnabled` | what every run keeps: references, the fence around steps in flight, no call that raises; when each event can happen |
| `CacheSystemSteps`, `CacheSystemGrow`, `CacheSystemDispatch`, `CacheSystemPublish`, `CacheSystemComplete`, `CacheSoundness`, `CacheCounterexample` | what the index names is what the blocks hold, and exactly when; a run after which it is not |
| `GenericCache`, `GenericOwnership` | the ungrouped block cache; its references against the lists of the requests |
| `Requests`, `AsyncRefinement`, `GenerationBound` | one request: progress, async against sync, length bounds |
| `SchedulerBudget`, `SchedulerPass` | one `schedule()` call, and the other operations of the scheduler |
| `ReplyPipe`, `Engine`, `StaleResults`, `StaleSchedule` | replies in transit; the engine loop and stale results; the scheduler as that loop's dispatch |
| `DraftWaves`, `DraftVerification`, `MtpWindow`, `MtpSlots`, `RingAddressing` | draft verification, prefill window, slots, addressing |
| `DecodeTables` | the Qwen decode buffers |

Page hashes are modelled as the data they are computed from (`Root | Chain`), so they are free of
collisions. The cache device, the worker, the target model and the cache as seen by the scheduler
are oracles: the environment chooses what they answer, within the contract stated with them.

## Claims that are false of the code, and when they hold

- **Publication from a snapshot** (`kv_cache.py:1005`) starts at `completed - len(block_ids)`,
  not at `allocated - len(block_ids)`, so a page can be published from a slot that already holds
  a newer page. Every such confirmation is an event of the model. The index stays sound exactly
  when each misnamed page is in the index already, where publication leaves its entry alone
  (`CacheSystemPublish.ConfirmSoundExactly` for one confirmation,
  `CacheSoundness.SoundExactly` for runs). A step whose first page to publish is still in its
  ring misnames none (`CacheSystemPublish.SnapshotExact`,
  `CacheSystemPublish.SnapshotSafeInRing`). `CacheCounterexample.SnapshotCounterexample` is a
  run from a fresh pool after which the index names a block with other content. Sound means that
  an entry names a block that was handed out for that page and holds it; references, queues and
  fences are conserved on all runs, sound or not (`CacheConservation`).
- **Placeholders equal the reservations in flight** (`scheduler.py:806-809`) fails exactly when a
  prefill chunk settles after the chunk that ends the prompt was dispatched
  (`AsyncRefinement.PlaceholdersExact`, `AsyncRefinement.EarlyRelease`); drained runs are equal
  all the same.
- **A decode reply of any length** is accounted for as the synchronous path does exactly when
  between one and `1 + num_speculative_tokens` tokens are kept
  (`AsyncRefinement.DecodeReplyExact`).
- **`max_new_tokens` bounds the output**, in either mode, exactly when it is at least one: the
  step that ends the prompt yields a token whatever the limit
  (`GenerationBound.LimitHoldsExactly`).
- **The reply read is the oldest step's** exactly while no cleanup step has timed out. A timed-out
  cleanup does not record its id (`async_engine.py:755-757`); from then on every step that
  receives a reply receives the wrong one (`ReplyPipe.DesyncExactly`, `ReplyPipe.RunKeeps`).
- **Discarding by status** keeps stale results out exactly for pipelines of depth one and two
  (`StaleResults.DepthExact`).
- **The generic index and the block hashes agree both ways** until a publication, and after it
  exactly when the hash was new or this block's own (`GenericCache.PublishedCompleteExactly`);
  admission, growth and release keep the agreement (`GenericOwnership`).

## Model

| member | source | states |
|---|---|---|
| CacheTypes.PageHashNamesPrefix | pypto_serving/serving/memory/kv_cache.py:27-29 | two prompts share the hash of page `i` exactly when they share the first `(i + 1) * size` tokens, and the token after them in a shifted group |
| CacheTypes.ComputePageHashes | pypto_serving/serving/memory/kv_cache.py:362-387 | the running-parent loops give the chained hash of every full page, in order |
| CacheTypes.PageHashes | pypto_serving/serving/memory/kv_cache.py:710-726 | one hash a full page, each naming a chain as long as its position |
| CacheTypes.FullPagesExact | pypto_serving/serving/memory/kv_cache.py:710-726 | a prompt has `n` full pages exactly when it has `n * size` tokens, and one more in a shifted group |
| CacheTypes.CeilDivExact | pypto_serving/serving/memory/kv_cache.py:1088-1090 | the page target of a token count is the least number of pages that hold the tokens |
| CacheTypes.SafeTokensExact | pypto_serving/serving/memory/kv_cache.py:892-897 | the tokens that the host counts as safe are the rows that are final by the rule for one row: a shifted row waits for the token after it |
| GroupPool.CompletedExactly | pypto_serving/serving/memory/kv_cache.py:892-901 | the pages counted as completed are the most that have hashes and whose rows are all final |
| GroupPool.LiveStartExact | pypto_serving/serving/memory/kv_cache.py:902-905 | live publication covers the pages not yet published that the ring still holds |
| GroupPool.SnapshotStartExact | pypto_serving/serving/memory/kv_cache.py:1001-1005 | publication from a snapshot covers the pages not yet published that the table could hold if it ended with the last completed page |
| Alignment.AlignmentExact | pypto_serving/serving/memory/kv_cache.py:692-703 | a token count is a multiple of the alignment exactly when every group ends on a full page there |
| RefConservation.TakeExact | pypto_serving/serving/memory/kv_cache.py:1069-1086 | a block can be taken exactly when the free queue is not empty; it comes unpublished with one reference, and nothing else moves |
| RefConservation.InvalidateCore | pypto_serving/serving/memory/kv_cache.py:1055-1067 | unpublishing a block keeps hashes and index inverse to each other |
| RefConservation.CacheBlockCore | pypto_serving/serving/memory/kv_cache.py:1018-1042 | publication, with or without a live duplicate, keeps hashes and index inverse to each other |
| RefConservation.InitialInv | pypto_serving/serving/memory/kv_cache.py:644-657 | a fresh pool owns and names nothing, hands out its blocks from number 0 on, and satisfies the conservation invariant |
| PoolOperations.PinAllInv | pypto_serving/serving/memory/kv_cache.py:917-948 | pinning a snapshot keeps every count equal to table slots plus pins |
| PoolOperations.UnpinAllInv | pypto_serving/serving/memory/kv_cache.py:950-967 | a pinned snapshot can always be released, and its release keeps the counts |
| PoolOperations.ReleaseInv | pypto_serving/serving/memory/kv_cache.py:1304-1327 | releasing a request never meets an unreferenced block, and keeps the counts |
| PoolOperations.AttachInv | pypto_serving/serving/memory/kv_cache.py:847-859 | attaching a hit takes exactly the unreferenced blocks out of the free queue and keeps the counts |
| QueueOrder.ReleaseQueue | pypto_serving/serving/memory/kv_cache.py:1304-1327 | a release appends to the queue, in table order, exactly the blocks whose last reference it was, and takes one reference from each block of the table |
| QueueOrder.UnpinQueue | pypto_serving/serving/memory/kv_cache.py:950-967 | so does the release of a snapshot, in its order |
| QueueOrder.AttachQueue | pypto_serving/serving/memory/kv_cache.py:847-859 | a hit takes its blocks out of the queue and leaves the others in order; each gains one reference |
| QueueOrder.PinOnce | pypto_serving/serving/memory/kv_cache.py:933-948 | pinning a snapshot adds one reference to each of its blocks, to no other, and moves nothing else |
| GrowthExactness.GrowExact | pypto_serving/serving/memory/kv_cache.py:1092-1122 | growth succeeds exactly when the predicted number of blocks is free, and takes exactly that many, through holes, shared slots and repeated ring wraps |
| GrowthExactness.GrowCovered | pypto_serving/serving/memory/kv_cache.py:1247-1262 | a request that already covers the target only fills the holes counted for it |
| GrowthExactness.SlotCostStep | pypto_serving/serving/memory/kv_cache.py:1104-1122 | a page that extends the table pays one block of the prediction |
| GrowthExactness.RotateCostStep | pypto_serving/serving/memory/kv_cache.py:1266-1289 | a page that wraps the ring pays one block exactly when its slot is shared |
| GrowthEffect.GrowEffect | pypto_serving/serving/memory/kv_cache.py:1247-1290 | after growth each slot either keeps its block and page, or holds an unpublished block that only this request holds |
| GrowthExactness.OversizedNeverFits | pypto_serving/serving/memory/kv_cache.py:1099-1103 | a full-history request beyond its table never fits, however many blocks are free |
| GrowthQueue.GrowServes | pypto_serving/serving/memory/kv_cache.py:1247-1290 | growth fills the empty slots in order and then gives each page its ring slot; the blocks come from the head of the queue in that order, a rotated block goes behind its tail, a shared one stays away, and the index loses exactly the entries of the blocks handed out |
| GrowthQueue.SpareBlocksKeepPages | pypto_serving/serving/memory/kv_cache.py:1282-1289 | while the old queue lasts, exactly its oldest blocks lose their pages, and the rotated blocks stand behind the rest with theirs |
| GrowthQueue.GrowReaches | pypto_serving/serving/memory/kv_cache.py:1247-1290 | growth never shrinks a request, and one that reaches its target has a complete table of the right size |
| BlockPool.GroupBlockPool.constructor | pypto_serving/serving/memory/kv_cache.py:644-657 | a fresh pool: all blocks free, in order |
| BlockPool.GroupBlockPool.InvalidateBlock | pypto_serving/serving/memory/kv_cache.py:1055-1067 | refines the specification's invalidation |
| BlockPool.GroupBlockPool.TakeBlock | pypto_serving/serving/memory/kv_cache.py:1069-1086 | refines the specification's take, raising in the same cases |
| BlockPool.GroupBlockPool.AdditionalBlocks | pypto_serving/serving/memory/kv_cache.py:1092-1122 | the counting loops compute the predicted cost |
| BlockPool.GroupBlockPool.Ensure | pypto_serving/serving/memory/kv_cache.py:1247-1290 | the growth loops refine the page-by-page specification of `GrowthQueue` and `GrowthExactness`, and cannot fail once the capacity check passed |
| BlockPool.GroupBlockPool.Retain | pypto_serving/serving/memory/kv_cache.py:917-948 | pins a whole snapshot or, when it may not be pinned, nothing |
| BlockPool.GroupBlockPool.ReleaseSnapshot | pypto_serving/serving/memory/kv_cache.py:950-967 | gives back exactly the snapshot's pins, as `QueueOrder.UnpinQueue` describes, and always succeeds on pinned blocks |
| BlockPool.GroupBlockPool.ReleaseRequest | pypto_serving/serving/memory/kv_cache.py:1304-1327 | removes the request's table and gives back exactly its references, as `QueueOrder.ReleaseQueue` describes |
| BlockPool.GroupBlockPool.CacheGroupBlock | pypto_serving/serving/memory/kv_cache.py:1018-1042 | refines the specification's publication |
| BlockPool.GroupBlockPool.PublishLive | pypto_serving/serving/memory/kv_cache.py:874-915 | publishes, from the live table, the pages still in the ring, and reports the most pages that are complete: those of a shifted group wait for one token more |
| BlockPool.GroupBlockPool.PublishSnapshot | pypto_serving/serving/memory/kv_cache.py:969-1016 | publishes from the table of the step, starting where the code starts, and reports the most pages that are complete |
| BlockPool.GroupBlockPool.SelectPrefix | pypto_serving/serving/memory/kv_cache.py:798-832 | one group's check of a candidate succeeds exactly when the pages that `PrefixSelection.HitExact` names are published, and selects their blocks |
| BlockPool.GroupBlockPool.AttachPrefix | pypto_serving/serving/memory/kv_cache.py:847-859 | attaches the selected blocks as specified |
| FreeQueue.FreeBlockQueue.Append | pypto_serving/serving/memory/kv_cache.py:66-74 | appends to the sequence the links stand for |
| FreeQueue.FreeBlockQueue.Remove | pypto_serving/serving/memory/kv_cache.py:87-102 | removes exactly the given block from anywhere in the sequence; a block that is not queued changes nothing |
| FreeQueue.FreeBlockQueue.QueuedExactly | pypto_serving/serving/memory/kv_cache.py:88-89 | the guard recognises exactly the blocks that are not queued |
| FreeQueue.FreeBlockQueue.PopLeft | pypto_serving/serving/memory/kv_cache.py:80-85 | takes the first block of the sequence, or none when it is empty |
| FreeQueue.RemoveIsWithout | pypto_serving/serving/memory/kv_cache.py:87-102 | removal from the linked queue is removal from the pool specification's list of ids |
| PrefixSelection.SelectedExact | pypto_serving/serving/memory/kv_cache.py:807-829 | each slot of the selected table holds the block published for its page when the window reaches that page, and is empty otherwise |
| PrefixSelection.HitExact | pypto_serving/serving/memory/kv_cache.py:800-823 | a candidate of `n` pages is a hit exactly when the index has every page `i` with `i + window >= n`, or all pages of a full history within its table |
| PrefixSelection.HitHoldsWindow | pypto_serving/serving/memory/kv_cache.py:807-829 | after a hit every page that the window reaches is in its ring slot, in the block published for it |
| PrefixSelection.SelectedInjective | pypto_serving/serving/memory/kv_cache.py:807-829 | tail pages never compete for a slot and no block is selected twice |
| Manager.KvCacheManager.CheckFits | pypto_serving/serving/memory/kv_cache.py:1166-1183 | true exactly when every group has the blocks that growth would take |
| Manager.KvCacheManager.FindPartition | pypto_serving/serving/memory/kv_cache.py:1141-1164 | among the partitions that fit, a least loaded one, and of those the first in round-robin order; none exactly when none fits |
| Manager.KvCacheManager.LoadExact | pypto_serving/serving/memory/kv_cache.py:1150-1156 | the load compared is the number of requests placed in the partition |
| Manager.KvCacheManager.OversizedExact | pypto_serving/serving/memory/kv_cache.py:1197-1210 | a request is oversized exactly when some full-history group has fewer slots than its tokens need |
| Manager.LeastLoaded | pypto_serving/serving/memory/kv_cache.py:1149-1164 | the search loop: minimal load, then minimal round-robin distance |
| Manager.KvCacheManager.ChoosePartition | pypto_serving/serving/memory/kv_cache.py:1185-1246 | the refusals in their order, a capacity refusal only when no admissible partition fits, and the least loaded partition for a new request |
| Manager.KvCacheManager.EnsureGroupBlocks | pypto_serving/serving/memory/kv_cache.py:1185-1302 | all groups of one fitting partition - for a new request the best one - grow as specified, and their tables then cover every token asked for; or no pool and no assignment changes, for the reason given |
| Manager.KvCacheManager.NarrowCandidate | pypto_serving/serving/memory/kv_cache.py:775-794 | the pass over full-history groups cuts off no boundary the partition can resume at |
| Manager.KvCacheManager.SearchPartition | pypto_serving/serving/memory/kv_cache.py:774-837 | the last page boundary within the limit at which the partition can resume, although validity is not monotone |
| Manager.KvCacheManager.FindPrefix | pypto_serving/serving/memory/kv_cache.py:771-841 | the longest over all partitions, and the first partition that offers it |
| Manager.KvCacheManager.AcquirePrefix | pypto_serving/serving/memory/kv_cache.py:728-872 | attaches the longest prefix over all boundaries and partitions, every page the request needs there in its slot and published block; a miss means there is none; errors change nothing |
| Manager.KvCacheManager.constructor | pypto_serving/serving/memory/kv_cache.py:644-657 | fresh pools for every partition and group, and a valid manager |
| Manager.KvCacheManager.ReleaseAll | pypto_serving/serving/memory/kv_cache.py:1304-1327 | the request gives up its blocks in every group of its partition, and nothing else changes |
| Manager.KvCacheManager.RetainSnapshot | pypto_serving/serving/memory/kv_cache.py:917-948 | a snapshot is pinned in all groups, one reference more for each of its blocks, or in none |
| Manager.KvCacheManager.ReleaseSnapshot | pypto_serving/serving/memory/kv_cache.py:950-967 | a pinned snapshot is released in all groups without raising |
| CacheDevice.ExecWrites | pypto_serving/serving/memory/kv_cache.py:917-932 | a step that runs on its own table leaves the rows it covers in the blocks of their pages |
| CacheSoundness.ApplyKeeps | pypto_serving/serving/memory/kv_cache.py:728-1327 | every host or device event keeps the whole-run invariant, except a confirmation that is not harmless |
| CacheSoundness.PrefixCacheSound | pypto_serving/serving/memory/kv_cache.py:874-1042 | on every run whose confirmations are harmless, each index entry names a block that holds exactly the page of its hash |
| CacheSoundness.SoundExactly | pypto_serving/serving/memory/kv_cache.py:969-1042 | the index is sound throughout a run if and only if no confirmation in it publishes a page new to the index for the wrong block |
| CacheConservation.ReferencesConserved | pypto_serving/serving/memory/kv_cache.py:917-967 | on every run, whatever is published, a block's count is its table slots plus its pins, the free queue is the unreferenced blocks once each, no table repeats a block, and a block has a hash exactly when the index maps that hash to it |
| CacheConservation.DrainedPinsNothing | pypto_serving/serving/sched/scheduler.py:866-879 | on every run every pin is given back: with nothing in flight, counts are table slots |
| CacheConservation.InFlightFence | pypto_serving/serving/memory/kv_cache.py:923-930 | no event hands a block of a step in flight out for another page, not even to its own request |
| CacheConservation.InFlightFenceOverRuns | pypto_serving/serving/memory/kv_cache.py:1266-1289 | the same from a fresh pool over any run, for as long as the step is in flight |
| CacheConservation.NothingRaises | pypto_serving/serving/memory/kv_cache.py:933-967 | on every run a complete live table can be pinned and published from, and the oldest step in flight can be published from and released, safe or not: no `RuntimeError` of these paths is reachable |
| CacheConservation.ApplyConserves | pypto_serving/serving/memory/kv_cache.py:728-1327 | every event, confirmations that name wrong blocks included, keeps counts, queues, tables, hashes and index consistent |
| CacheEnabled.PossibleExactly | pypto_serving/serving/memory/kv_cache.py:728-1327 | on every run: a request is admitted with a hit exactly when the index has the pages it needs, grows exactly when the missing blocks are free, is dispatched exactly when its complete table covers the step, and the oldest step is confirmed exactly when its result is good and its request the same |
| CacheConservation.SynchronousStep | pypto_serving/serving/sched/scheduler.py:725-744 | a synchronous step takes no pins; dispatching, executing and settling in a row leaves the pool as it was, so that makes no difference |
| Publication.PublishExact | pypto_serving/serving/memory/kv_cache.py:1007-1042 | the index after a publication, entry by entry: pages new to it are named by the block of their slot, and a block published from keeps no other entry |
| Publication.PublishSucceeds | pypto_serving/serving/memory/kv_cache.py:1007-1015 | the publication loop reaches every page and does not raise |
| CacheSystemComplete.ConfirmComplete | pypto_serving/serving/memory/kv_cache.py:997-1042 | confirming a step whose pages are in its ring loses no entry, and afterwards the index has exactly the old hashes and those of the pages the step completed |
| CacheSystemComplete.PublishLiveComplete | pypto_serving/serving/memory/kv_cache.py:894-915 | so does publication from the live table |
| CacheSystemPublish.ConfirmKeeps | pypto_serving/serving/sched/scheduler.py:811-836 | a harmless confirmation keeps the whole-run invariant |
| CacheSystemPublish.ConfirmSoundExactly | pypto_serving/serving/memory/kv_cache.py:997-1042 | one confirmation, in any reachable sound state, leaves the index sound exactly when every page it misnames is already indexed |
| CacheSystemPublish.ConfirmExact | pypto_serving/serving/memory/kv_cache.py:997-1042 | the index after any confirmation, right or wrong, entry by entry |
| CacheSystemPublish.PublishLiveKeeps | pypto_serving/serving/memory/kv_cache.py:894-915 | publication from the live table names only complete pages |
| CacheSystemPublish.SnapshotExact | pypto_serving/serving/memory/kv_cache.py:997-1016 | no page is misnamed exactly when the first page to publish is still in the step's ring, and otherwise that page is |
| CacheSystemPublish.SafeIsHarmless | pypto_serving/serving/memory/kv_cache.py:997-1016 | a confirmation is harmless when its step is safe; an unsafe one can only be if its first page is indexed already |
| CacheSystemPublish.SnapshotSafeInRing | pypto_serving/serving/memory/kv_cache.py:997-1006 | no page is misnamed for chunks that fit the ring and for steps that end on a page boundary |
| CacheCounterexample.SnapshotCounterexample | pypto_serving/serving/memory/kv_cache.py:1001-1015 | a run of five events from a fresh pool after which the index names a block with other content |
| CacheSystemDispatch.DispatchKeeps | pypto_serving/serving/sched/scheduler.py:628-639 | dispatch with a pinned table keeps the invariant |
| CacheSystemDispatch.ExecuteKeeps | pypto_serving/serving/sched/scheduler.py:811-815 | execution by the device, late or failed, keeps the invariant |
| CacheSystemGrow.ExtendKeeps | pypto_serving/serving/memory/kv_cache.py:1247-1290 | growth during flight keeps the invariant |
| CacheSystemGrow.AdmitKeeps | pypto_serving/serving/memory/kv_cache.py:843-859 | a prefix hit during flight keeps the invariant |
| CacheSystemGrow.AdmitHoldsWindow | pypto_serving/serving/memory/kv_cache.py:843-859 | in the run model, after a hit every page the window reaches is in its slot, and the block there holds exactly that page |
| CacheSystemSteps.DiscardKeeps | pypto_serving/serving/sched/scheduler.py:877-879 | dropping the oldest step, whether its request is gone, it failed, or the host will not wait, keeps the invariant |
| CacheSystemSteps.RetireKeeps | pypto_serving/serving/sched/scheduler.py:984-995 | finishing, aborting or preempting a request during flight keeps the invariant |
| RingArithmetic.SlotPageAt | pypto_serving/serving/memory/kv_cache.py:1108-1119 | each of the newest pages is the one its ring slot holds |
| RingArithmetic.RingStep | pypto_serving/serving/memory/kv_cache.py:1266-1289 | adding a page changes the content of one slot only |
| GenericCache.BlockCache.Allocate | pypto_serving/serving/memory/kv_cache.py:279-297 | all of the requested blocks, the next victims in order, or none and nothing changes |
| GenericCache.BlockCache.Release | pypto_serving/serving/memory/kv_cache.py:353-359 | gives back one reference, and queues the block when it was the last |
| GenericCache.BlockCache.GetCached | pypto_serving/serving/memory/kv_cache.py:323-333 | references the block indexed under the hash, taking it out of the queue if needed |
| GenericCache.BlockCache.Publish | pypto_serving/serving/memory/kv_cache.py:335-342 | refines the specification's publication and keeps the index sound |
| GenericCache.BlockCache.ComputedBlocks | pypto_serving/serving/memory/kv_cache.py:393-415 | references exactly the longest published run of leading pages within the limit, and takes those blocks out of the queue |
| GenericCache.PublishedSound | pypto_serving/serving/memory/kv_cache.py:335-342 | what the index names has that hash, despite overwritten duplicates |
| GenericCache.PublishedCompleteExactly | pypto_serving/serving/memory/kv_cache.py:335-342 | the converse survives a publication exactly when the hash is new or already this block's |
| GenericOwnership.RequestCache.RefsAreEntries | pypto_serving/serving/sched/scheduler.py:984-995 | a block's count is the number of its occurrences in the lists of all requests, and it is free exactly when no list has it |
| GenericOwnership.RequestCache.TryAllocate | pypto_serving/serving/sched/scheduler.py:891-907 | grows a request's list to the blocks it needs exactly when enough are free, and changes nothing otherwise |
| GenericOwnership.RequestCache.Admit | pypto_serving/serving/sched/scheduler.py:382-475 | a request is admitted exactly when the blocks missing after its longest published prefix are free; otherwise it gives back everything its lookup referenced |
| GenericOwnership.RequestCache.Grow | pypto_serving/serving/sched/scheduler.py:898-907 | growth of a running request keeps the counts |
| GenericOwnership.RequestCache.Leave | pypto_serving/serving/sched/scheduler.py:984-995 | a request that finishes or is preempted gives back each of its references once, and queues what that frees in the order of its lists |
| GenericOwnership.RequestCache.PublishPages | pypto_serving/serving/memory/kv_cache.py:344-351 | publishes a range of pages, stopping where pages or blocks end |
| GenericOwnership.RangePublished | pypto_serving/serving/memory/kv_cache.py:335-351 | with different pages and blocks, none of which carries the hash of another, each page of the range is indexed for its block; what the range does not touch stays |
| Requests.Request.AdvanceAfterSchedule | pypto_serving/serving/sched/scheduler.py:610-667 | refines the specification of optimistic progress |
| Requests.Request.AppendTokens | pypto_serving/serving/sched/scheduler.py:838-846 | appends the tokens up to the first that finishes the request, and says how many |
| Requests.Request.ReconcileAsyncOutput | pypto_serving/serving/sched/scheduler.py:774-864 | refines the specification of reconciliation |
| Requests.Request.ApplyResult | pypto_serving/serving/sched/scheduler.py:681-772 | refines the specification of settling one reply, in both modes |
| Requests.Request.ResetForPreemption | pypto_serving/serving/sched/scheduler.py:966-979 | refines the specification of a victim's reset |
| AsyncRefinement.DrainedRunIsSynchronous | pypto_serving/serving/sched/scheduler.py:610-864 | for any chunking, any replies within contract and any depth: a drained async run agrees with the sync run on outputs and status, on the whole state while unfinished, and up to the discarded steps when finished |
| AsyncRefinement.RunIsCoupled | pypto_serving/serving/sched/scheduler.py:774-864 | at every point of an async run the two runs differ by exactly the steps in flight |
| AsyncRefinement.DispatchKeeps | pypto_serving/serving/sched/scheduler.py:628-667 | dispatch keeps the coupling |
| AsyncRefinement.SettleKeeps | pypto_serving/serving/sched/scheduler.py:790-864 | a settled step is one the sync scheduler could pick now, and keeps the coupling |
| AsyncRefinement.NoDecodeBehindPrefill | pypto_serving/serving/sched/scheduler.py:114-118 | with speculation configured, no decode is dispatched while the end of the prompt is in flight |
| AsyncRefinement.BarrierExact | pypto_serving/serving/sched/scheduler.py:662-667 | on every run the barrier is up exactly while speculation is configured and the step that completes its prompt is in flight |
| AsyncRefinement.DispatchReserves | pypto_serving/serving/sched/scheduler.py:640-661 | a dispatch reserves a placeholder for each token its step can emit: placeholders stay equal to the reservations in flight, and past the prompt exactly one more token is needed, so the next decode can be dispatched at once |
| AsyncRefinement.PipelineStaysFull | pypto_serving/serving/sched/scheduler.py:610-679 | on every run without an early release, a request that runs always has something to dispatch, but for the prefill barrier |
| AsyncRefinement.PlaceholdersExact | pypto_serving/serving/sched/scheduler.py:806-852 | settling a step leaves placeholders equal to reservations exactly when the step sampled or the end of the prompt was not yet dispatched |
| AsyncRefinement.EarlyRelease | pypto_serving/serving/sched/scheduler.py:806-852 | a run in which a placeholder is released early |
| AsyncRefinement.DecodeReplyExact | pypto_serving/serving/sched/scheduler.py:838-864 | a decode settles as in the sync path exactly when between one and the reserved number of tokens is kept |
| GenerationBound.RetainedExact | pypto_serving/serving/sched/scheduler.py:838-846 | the loop keeps everything up to the first finish and nothing after |
| GenerationBound.ReplyOutput | pypto_serving/serving/sched/scheduler.py:681-772 | a reply adds exactly what the token loop keeps - nothing for a finished or preempted request, or for a synchronous chunk before the end of the prompt |
| GenerationBound.FinishesExactly | pypto_serving/serving/sched/scheduler.py:881-889 | on every run the status says which end was reached, end of sequence before length, and a request that reached neither is not finished |
| GenerationBound.OutputBounded | pypto_serving/serving/sched/scheduler.py:881-889 | on every run, in either mode and whatever the worker returns, at most max(1, limit) tokens, and nothing after the end-of-sequence token |
| GenerationBound.SettleBounded | pypto_serving/serving/sched/scheduler.py:681-772 | one reply of any length, for any step and in either mode, keeps the output open until its last token |
| GenerationBound.FinishedIsFinal | pypto_serving/serving/sched/scheduler.py:703-705 | a finished request never gets another token |
| GenerationBound.SequenceBounded | pypto_serving/serving/sched/scheduler.py:201-230 | with the admission cap, prompt and output fit the sequence limit on every run in either mode |
| GenerationBound.LimitHoldsExactly | pypto_serving/serving/sched/scheduler.py:881-889 | in either mode the limit bounds every run exactly when it is at least one |
| SchedulerBudget.UnscheduledTotal | pypto_serving/serving/sched/scheduler.py:954-964 | unscheduling a victim gives back exactly what it was charged, in its own phase |
| SchedulerBudget.EvictBalanced | pypto_serving/serving/sched/scheduler.py:954-964 | preemption keeps budget and token counters in balance |
| SchedulerBudget.ChargeBalanced | pypto_serving/serving/sched/scheduler.py:326-348 | scheduling keeps budget and token counters in balance, speculative tokens included |
| SchedulerBudget.ChargedAsAdvanced | pypto_serving/serving/sched/scheduler.py:326-348 | what is charged for a step is how far the request moves when it is sent, drafts included |
| SchedulerBudget.LimitedExact | pypto_serving/serving/sched/scheduler.py:556-570 | a step gets the most tokens that need, budget and chunk limits allow, a whole prompt where it may not be cut, and nothing exactly when nothing may be given |
| SchedulerBudget.RejectsExact | pypto_serving/serving/sched/scheduler.py:535-554 | a prompt is rejected exactly when it may not be cut and no budget ever admits the rest of it at once |
| SchedulerBudget.AffordableExact | pypto_serving/serving/sched/scheduler.py:296-311 | the two tests of the first loop pass exactly when the most that may be taken, with its speculative tokens, fits the budget |
| SchedulerBudget.NoPhaseStarves | pypto_serving/serving/sched/scheduler.py:595-608 | over any run of calls, work of one kind that stays available is chosen in at least every second call |
| SchedulerPass.Scheduler.ChooseVictim | pypto_serving/serving/sched/scheduler.py:939-952 | the latest arrival among the other requests, of the same partition where there is one |
| SchedulerPass.Scheduler.PreemptLowestPriority | pypto_serving/serving/sched/scheduler.py:927-982 | the victim leaves the running queue and the output, is reset, and waits first in line; nothing else changes |
| SchedulerPass.Scheduler.ScheduleRunning | pypto_serving/serving/sched/scheduler.py:279-348 | one turn over the stale snapshot: a request in its turn gets the most the limits allow of the budget it finds, with one preemption if the cache refuses, and is left out only if the cache refuses again |
| SchedulerPass.Scheduler.Allocate | pypto_serving/serving/sched/scheduler.py:313-324 | a refused allocation preempts exactly one other request, if there is one, and is tried once more |
| SchedulerPass.Scheduler.ScheduleRunningQueue | pypto_serving/serving/sched/scheduler.py:275-357 | the first loop: running is what ran, in order, without the victims, and the output follows that order |
| SchedulerPass.Scheduler.TryAdmit | pypto_serving/serving/sched/scheduler.py:382-475 | a request is admitted with the most tokens the limits allow after its prefix hit; rejected exactly when what is left of its prompt may neither be cut nor fit the limits; deferred only when nothing may be taken now; blocked exactly when the cache refuses |
| SchedulerPass.Scheduler.AdmitWaiting | pypto_serving/serving/sched/scheduler.py:363-498 | the second loop never admits a victim of this call, admits in the waiting order, and ends only for want of requests, budget or places, or when the cache refuses |
| SchedulerPass.Scheduler.SelectPhase | pypto_serving/serving/sched/scheduler.py:572-608 | a phase is chosen exactly when there is work, only for work of its kind; the preference decides between both kinds and moves away from the choice |
| SchedulerPass.Scheduler.AllocateOrCold | pypto_serving/serving/sched/scheduler.py:448-475 | a granted request keeps its prefix hit; a hit that is refused is given up and tried once more from the start; then the request is blocked, holding nothing |
| SchedulerPass.Scheduler.ScheduleFirst | pypto_serving/serving/sched/scheduler.py:270-362 | after the first loop the victims are reset and wait in front, and every other request is as it was; with a cache that grants everything there are no victims and every affordable request of the phase was served |
| SchedulerPass.Scheduler.Schedule | pypto_serving/serving/sched/scheduler.py:270-500 | no request is lost or duplicated, each queue and the output keep their order, budget plus scheduled tokens is the configured maximum, and each entry takes the most the limits allow of what the entries before it left; victims are reset, rejected requests aborted, admitted ones run, and nothing else changes; the phase is chosen by the rotation rule; a cache that grants everything causes no preemption, and work is left only for want of budget or places |
| SchedulerPass.Scheduler.constructor | pypto_serving/serving/sched/scheduler.py:180-199 | a scheduler starts empty and valid, preferring decode |
| SchedulerPass.Scheduler.AddRequest | pypto_serving/serving/sched/scheduler.py:201-246 | a request is refused exactly when its prompt leaves no room, or may not be cut and exceeds a limit; otherwise it waits last in line, its generation capped to the sequence |
| SchedulerPass.Scheduler.AbortRequest | pypto_serving/serving/sched/scheduler.py:248-255 | the request leaves both queues and gives up its blocks |
| SchedulerPass.Scheduler.AdvanceAfterSchedule | pypto_serving/serving/sched/scheduler.py:610-679 | every scheduled request moves on as specified, and no other changes |
| SchedulerPass.Scheduler.UpdateFromOutput | pypto_serving/serving/sched/scheduler.py:681-772 | every reply is applied or discarded as specified, the closing scan finishes the others, and exactly the unfinished requests stay, in order |
| ReplyPipe.RunKeeps | pypto_serving/serving/engine/async_engine.py:559-808 | on every run, as many replies are orphaned as cleanups have timed out, and the batch's replies come last, in order |
| ReplyPipe.RepliesAligned | pypto_serving/serving/engine/async_engine.py:607-623 | without a cleanup timeout, the replies in transit are those of the discarded steps, in order, then those of the batch |
| ReplyPipe.DesyncExactly | pypto_serving/serving/engine/async_engine.py:584-597 | a received reply is the oldest step's if no cleanup has timed out before, and never if one has |
| ReplyPipe.OneTimeoutDesyncs | pypto_serving/serving/engine/async_engine.py:752-757 | a run of three events that reaches the desync branch |
| ReplyPipe.AwaitEffect | pypto_serving/serving/engine/async_engine.py:559-605 | what one await does to the orphans, in each of its outcomes |
| ReplyPipe.CleanupEffect | pypto_serving/serving/engine/async_engine.py:721-760 | what one cleanup does to the orphans, answered or timed out |
| Engine.ReplicaEngine.DispatchStep | pypto_serving/serving/engine/async_engine.py:538-557 | refines the dispatch event |
| Engine.ReplicaEngine.GetLiveResult | pypto_serving/serving/engine/async_engine.py:607-623 | the draining loop refines its specification |
| Engine.ReplicaEngine.HandleStepError | pypto_serving/serving/engine/async_engine.py:762-792 | every step in flight is discarded, the failed one only when its reply is still to come |
| Engine.ReplicaEngine.AwaitAndApplyOldest | pypto_serving/serving/engine/async_engine.py:559-605 | refines the await event with all its outcomes |
| Engine.ReplicaEngine.FlushPendingFrees | pypto_serving/serving/engine/async_engine.py:721-760 | refines the cleanup event |
| StaleResults.RunSafe | pypto_serving/serving/sched/scheduler.py:691-705 | at depth one or two, no result from before a preemption is ever applied after it |
| StaleResults.NothingPreemptedInFlight | pypto_serving/serving/engine/async_engine.py:494-512 | at every loop head no preempted request is part of a step in flight |
| StaleSchedule.DispatchBySchedule | pypto_serving/serving/sched/scheduler.py:270-500 | one call of the scheduler is one dispatch of the loop: its choice is allowed, and the statuses afterwards are those of the loop |
| StaleSchedule.PassMayChoose | pypto_serving/serving/sched/scheduler.py:353-380 | victims ran, admitted and rejected requests waited, and only running or admitted requests are scheduled |
| StaleResults.DepthExact | pypto_serving/serving/sched/scheduler.py:697-705 | the status check is enough on all runs exactly when the depth is at most two |
| DraftVerification.MatchExact | pypto_serving/model/deepseek/npu_runner.py:1069-1074 | the match count is the length of the longest agreeing prefix |
| DraftVerification.AcceptExact | pypto_serving/model/deepseek/npu_runner.py:1069-1074 | what is accepted is the drafts that were predicted, up to the first that was not, and then the prediction in its place |
| DraftVerification.MainRowExact | pypto_serving/model/deepseek/npu_runner.py:2573-2586 | the last committed token is fed at its own position and each draft at the one after the token before it |
| DraftVerification.AcceptMtpTokens | pypto_serving/model/deepseek/npu_runner.py:1058-1075 | every row accepts its longest matching prefix and one more prediction; it raises exactly on the wrong shapes |
| DraftVerification.CheckRow | pypto_serving/model/deepseek/npu_runner.py:2670-2713 | one request in one chunk: decided as the specification decides, or waiting at the chunk's border |
| DraftVerification.ResolvePending | pypto_serving/model/deepseek/npu_runner.py:2591-2604 | the pending prediction at a chunk's border is accepted, and decides the row unless it matches |
| DraftVerification.ChunkWaves | pypto_serving/model/deepseek/npu_runner.py:2620-2634 | every active row is in exactly one wave, a narrow wave has at most one row a rank and can itself be placed; it raises exactly when the active rows do not fit the ranks |
| DraftVerification.VerifyDrafts | pypto_serving/model/deepseek/npu_runner.py:2558-2725 | for any depth, width and placement, every request accepts what the specification accepts from its full prediction row, with the last accepted token as tail at the position after it; it raises exactly when there are requests and they do not fit the ranks |
| DraftWaves.DecodeAssignment | pypto_serving/model/deepseek/npu_runner.py:4861-4888 | each row has its own place on its rank, in the order of the batch; it raises exactly on an empty batch, a rank out of range or a full tile |
| DraftWaves.WavesPartition | pypto_serving/model/deepseek/npu_runner.py:2623-2634 | the waves partition the rows, at most one of each rank in a wave, in the order of the ranks |
| MtpWindow.WindowIndependentOfChunking | pypto_serving/model/deepseek/npu_runner.py:3045-3129 | after any contiguous chunks, every row of the window has been run once, in order, with its own token, position and slot |
| MtpWindow.SegmentExact | pypto_serving/model/deepseek/npu_runner.py:3045-3129 | a segment runs exactly those positions of its chunk, and the pending one, that the window at the chunk's end reaches |
| MtpWindow.RowExact | pypto_serving/model/deepseek/npu_runner.py:3095-3107 | the row of a position has the next position's token and the slot its chunk gave for it |
| MtpWindow.AcceptedExactly | pypto_serving/model/deepseek/npu_runner.py:3058-3093 | a prefill is accepted exactly when no chunk is empty and each starts where the one before it ended, on the same rank |
| MtpWindow.SegmentsFit | pypto_serving/model/deepseek/npu_runner.py:3147-3151 | no segment is empty or longer than the draft head takes |
| MtpWindow.RequestState.CapturePrefill | pypto_serving/model/deepseek/npu_runner.py:3045-3129 | the parallel lists hold the specified segment, and a chunk is refused exactly when empty, moved or not contiguous |
| MtpSlots.TakeKeeps | pypto_serving/model/deepseek/npu_runner.py:3459-3469 | taking a slot keeps free and owned slots a partition of each rank |
| MtpSlots.ReleaseKeeps | pypto_serving/model/deepseek/npu_runner.py:1373-1386 | releasing a request keeps the partition |
| MtpSlots.StaleMatchesExactly | pypto_serving/model/deepseek/npu_runner.py:3463-3466 | a generation returns exactly after a multiple of 2^31 - 1 reallocations |
| MtpSlots.OwnersShareGeneration | pypto_serving/model/deepseek/npu_runner.py:3463-3469 | two owners of one slot share a generation exactly when such a multiple of owners lies between them |
| MtpSlots.SlotTable.Reserve | pypto_serving/model/deepseek/npu_runner.py:3427-3469 | a request keeps its slot; a new one takes the last free slot, whose generation goes up by one, from 2^31 - 1 back to 1; the refusals are exact |
| MtpSlots.SlotTable.Release | pypto_serving/model/deepseek/npu_runner.py:1373-1386 | the slot, if there is one, goes back to its rank |
| RingAddressing.SlotsShareExactly | pypto_serving/model/deepseek/npu_runner.py:606-614 | two positions share a slot of a ring of distinct blocks exactly when they are congruent modulo its capacity |
| RingAddressing.SlotExact | pypto_serving/model/deepseek/npu_runner.py:606-614 | offset `o` of the `i`-th page of any lap is offset `o` of the ring's `i`-th block |
| RingAddressing.WindowSlotsDistinct | pypto_serving/model/deepseek/npu_runner.py:637-650 | no two positions of a window that fits the ring share a slot |
| RingAddressing.RunnerPicksManagerBlock | pypto_serving/serving/memory/kv_cache.py:1266-1270 | each position of the newest pages goes to the block that the manager put its page in, at its offset |
| RingAddressing.SlotMapping | pypto_serving/model/deepseek/npu_runner.py:594-614 | every position is mapped to its ring slot, the rest up to the longest row is padding; it raises exactly on missing rows or blocks |
| RingAddressing.WindowIndices | pypto_serving/model/deepseek/npu_runner.py:616-652 | every window row lists the write mapping's slots of the last min(p + 1, window) positions, in order |
| DecodeTables.DecodeBuffers.WriteRow | pypto_serving/model/qwen/npu_runner.py:1077-1096 | after the call the row is a full rebuild, skipped or not, and other rows are untouched |
| DecodeTables.DecodeBuffers.PrepareDecode | pypto_serving/model/qwen/npu_runner.py:971-1075 | every active row is a full rebuild from the caller's list as it is now, idle rows repeat row 0, and it raises exactly when a request does not fit |
| DecodeTables.SlotOfExact | pypto_serving/model/qwen/npu_runner.py:1099-1129 | offset `o` of the `i`-th page is offset `o` of the `i`-th block of the list |
| DecodeTables.WriteSlotMapping | pypto_serving/model/qwen/npu_runner.py:1099-1129 | the page-sized spans give every position its slot; it raises exactly when the pages do not reach the last position |

## Left out

- Events of the whole-run cache machine are those of one pool and one partition; pools and partitions share no state, and a global block id is the pair of partition and local id. Growth and prefix attachment over all groups and partitions are in `Manager`.
- CacheSoundness.PrefixCacheSound: is about runs whose confirmations are harmless; the code does not check that, and `CacheSoundness.SoundExactly` shows that the condition is exact.
- CacheSystemPublish.ConfirmSoundExactly: counts an entry as unsound as soon as its block was handed out for another page, even while the block still holds the old one.
- AsyncRefinement.DrainedRunIsSynchronous: starts from a request with a non-empty prompt and no output; the restart of a preempted request that already has output, whose chunk is cut from the prompt only, is modelled in `SchedulerPass` for queues and budget, but not for its tokens.
- SchedulerPass.Scheduler.Schedule: request ids are identified with request objects, and the `requests` dictionary is not modelled.
- StaleResults.RunSafe: runs on request ids and statuses; `StaleSchedule.DispatchBySchedule` puts the scheduler in the place of its dispatch events, its other events are not tied to code.
- SchedulerPass.Scheduler.UpdateFromOutput: publication, pins and output messages are not part of it; the request id of a reply is the request object.
- The free queue appears in the pools as the sequence of its block ids; the linked queue itself is `FreeQueue`.
- Failing calls that leave a pool inconsistent (the `RuntimeError`s of a corrupted queue) appear as `None`; they are proved unreachable for growth, release, publication and pinned snapshots.
- Publication over several groups is that of each pool; the returned dictionaries of block ids are not modelled.
- A confirmation of a step of an admission that has lost another step is not an event: the engine aborts every request of a failed batch and of the batches behind it.
- The free order of blocks after an abort during a synchronous step: the model pins every step until it settles.
- The number of groups, partitions, ranks, batch rows and ring sizes are parameters; configuration parsing and validation are preconditions.
- Tensors are sequences of integers or of positions; logits, weights, device memory and kernel dispatch are oracles.
- HTTP, CLI, tokenizers, incremental detokenization, stop strings, profiling and replica routing.
- `asyncio`: each stretch between two awaits is one atomic step.
- Recurrent draft positions and the runner's shutdown.
- The worker's token cache in `serving_worker.py` is not part of this model; the worker is a FIFO that answers each command once.
