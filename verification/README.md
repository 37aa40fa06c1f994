# Serving-stack models

A model of the parts of the serving stack where state is easiest to corrupt, with proofs of
what they guarantee:

- `pool/`: the prefix-cache block pool. `FreeQueue.dfy` (linked free list), `BlockMap.dfy` (key
  to blocks) and `BlockPool.dfy` are classes over heap objects with the fields and loops of the
  program. `PoolModel.dfy` gives the same operations as functions on plain values; every method
  of the class is proved to compute the function of its name on the abstract state.
  `PoolInvariants.dfy`, `PoolTiming.dfy` and `PoolRuns.dfy` prove what every operation, and
  every run, keeps. `PoolCalls.dfy` carries this over to any sequence of calls of the real
  methods, and to the event log they write. `Events.dfy` accounts for announcements.
  `PoolMeaning.dfy` says what the functions do block by block, without the functions.
  `PoolSteps.dfy` and `CacheSteps.dfy` show how the loops build up the functions.
- `hashing/`: chained block hashes of a request, computed as tokens arrive, and coarser views.
- `layout/`: the packed layout, block counts, admission, and the shrink to the smallest worker;
  `PlanMeaning.dfy` spells out each branch of admission, `PlanTensors.dfy` where each layer
  ends up.
- `transfer/`: the worker's asynchronous stores and retrieves, the scheduler's multi-server
  lookup with its read locks, the connector that uses it, and the assignment of writers.
- `deploy/`: the two-node update with its recovery, the containers and option texts it deals in,
  the network state it reads, and the sweep of the second-level cache directory.

How to read it: the class `BlockPool` carries its abstract state in the ghost field `st`;
`Valid()` says that the heap agrees with `st`, that `st` satisfies the invariant, and that the
events emitted balance with what is cached. Several facts are kept sealed behind a trigger
(`Sound`, `Keys`, `Queue`, `SoFar`): they are ordinary equivalent statements whose quantifiers
are opened only where needed. Block ids, requests and similar ghost parameters name what the
program's object references stand for.

Assumptions about callers are those the source asserts or documents: clocks do not go back, a
block is not released more often than it is held (`FreeOwnedIff` shows this is exactly what
ownership needs), keys are attached to held blocks (needed for the timing results only), and a
destination of moved keys has none. That the destination is not the null block is assumed here;
the program does not check it. Hash functions are parameters; results that need injectivity say
so. Integers are unbounded, as in the program.

About docker it is assumed that it refuses some commands (which ones is a parameter). Of the
others it cuts the text of labels, mounts and ulimits at their separators (`Containers.dfy`),
gives a bare environment name the value it has at the client, reports everything else as it was
given, and fills in what is not given from its own settings or from the image; client, settings
and images are parameters too.

Where the program does not keep a promise, the exact condition is proved: `FreeOwnedIff`,
`SubmitRetrieveRequest` (one retrieve in flight per id), `FirstBlockConfusion` with
`DigestsEqual`, and `Update` with `RecreatableIff` and `LostPair`: the recovery removes a
container before it finds out that it cannot create it anew, for instance because of a mount in
memory, whose source docker reports as empty, or creates a different one, because an equals sign
or a comma inside a value is taken for a separator (`SameCommand`). `ConfigsExistIff` says when
planning goes through; that an admitted worker has memory for a block follows once a request
needs one (`AdmittedHoldsOne`).

The worker's heartbeat and the scheduler's are inputs: the guard at lines 674-681 of the adapter
tests a dictionary for None, so the scheduler's heartbeat threads do not start, contrary to its
comment.

Verify with `dafny verify dfyconfig.toml`.

## Model

| member | source | states |
|---|---|---|
| `BlockKeys.KeyRoundTrip` | artifacts/native432-lmcache-rollout-20260904/image/incident-fix-20260905/overlay/vllm/v1/core/kv_cache_utils.py:60-79 | unpacking a packed key gives back hash and group |
| `BlockKeys.KeyRepack` | artifacts/native432-lmcache-rollout-20260904/image/incident-fix-20260905/overlay/vllm/v1/core/kv_cache_utils.py:60-79 | every key of four or more bytes is the packing of its two parts, so no information is added or lost |
| `BlockKeys.KeysDiffer` | artifacts/native432-lmcache-rollout-20260904/image/incident-fix-20260905/overlay/vllm/v1/core/kv_cache_utils.py:60-79 | two packed keys are equal exactly when hash and group are |
| `FreeQueue.FreeKVCacheBlockQueue.constructor` | artifacts/native432-lmcache-rollout-20260904/image/incident-fix-20260905/overlay/vllm/v1/core/kv_cache_utils.py:220-248 | the blocks given become the list, doubly linked between two fresh sentinels |
| `FreeQueue.FreeKVCacheBlockQueue.PopLeft` | artifacts/native432-lmcache-rollout-20260904/image/incident-fix-20260905/overlay/vllm/v1/core/kv_cache_utils.py:250-285 | takes the first block, with its links cleared; nothing when the list is empty |
| `FreeQueue.FreeKVCacheBlockQueue.PopLeftN` | artifacts/native432-lmcache-rollout-20260904/image/incident-fix-20260905/overlay/vllm/v1/core/kv_cache_utils.py:287-318 | takes the first n blocks in order, unlinked, and keeps the rest a valid list |
| `FreeQueue.FreeKVCacheBlockQueue.PopLeftNWhere` | artifacts/native432-lmcache-rollout-20260904/image/incident-fix-20260905/overlay/vllm/v1/core/kv_cache_utils.py:320-353 | takes the first n blocks that meet the condition, in list order, and leaves the others in order |
| `FreeQueue.FreeKVCacheBlockQueue.Remove` | artifacts/native432-lmcache-rollout-20260904/image/incident-fix-20260905/overlay/vllm/v1/core/kv_cache_utils.py:355-373 | cuts one block out of the list and clears its links; refuses a block without links |
| `FreeQueue.FreeKVCacheBlockQueue.Append` | artifacts/native432-lmcache-rollout-20260904/image/incident-fix-20260905/overlay/vllm/v1/core/kv_cache_utils.py:375-396 | puts one block before the tail sentinel |
| `FreeQueue.FreeKVCacheBlockQueue.PrependN` | artifacts/native432-lmcache-rollout-20260904/image/incident-fix-20260905/overlay/vllm/v1/core/kv_cache_utils.py:398-417 | puts the blocks in front, in order |
| `FreeQueue.FreeKVCacheBlockQueue.AppendN` | artifacts/native432-lmcache-rollout-20260904/image/incident-fix-20260905/overlay/vllm/v1/core/kv_cache_utils.py:419-442 | puts the blocks behind, in order |
| `FreeQueue.FreeKVCacheBlockQueue.GetAllFreeBlocks` | artifacts/native432-lmcache-rollout-20260904/image/incident-fix-20260905/overlay/vllm/v1/core/kv_cache_utils.py:444-462 | walks the links from head to tail and meets exactly the list |
| `BlockMap.BlockHashToBlockMap.GetOneBlock` | artifacts/native432-lmcache-rollout-20260904/image/incident-fix-20260905/overlay/vllm/v1/core/block_pool.py:62-73 | the block cached longest under a key, or none when there is none |
| `BlockMap.BlockHashToBlockMap.Contain` | artifacts/native432-lmcache-rollout-20260904/image/incident-fix-20260905/overlay/vllm/v1/core/block_pool.py:75-87 | whether a block is cached under a key, in either form of entry |
| `BlockMap.BlockHashToBlockMap.Insert` | artifacts/native432-lmcache-rollout-20260904/image/incident-fix-20260905/overlay/vllm/v1/core/block_pool.py:89-105 | a new block goes last under its key, one already there keeps its place; other keys are untouched |
| `BlockMap.BlockHashToBlockMap.Pop` | artifacts/native432-lmcache-rollout-20260904/image/incident-fix-20260905/overlay/vllm/v1/core/block_pool.py:107-135 | removes one block from one key, drops an empty entry, puts a foreign one back |
| `BlockPool.BlockPool.constructor` | artifacts/native432-lmcache-rollout-20260904/image/incident-fix-20260905/overlay/vllm/v1/core/block_pool.py:166-214 | a fresh pool: every block but the null block is free, in the order of the ids, nothing is cached, nothing is announced and no announcement is booked as a repeat; all its parts are new |
| `BlockPool.BlockPool.RemoveCachedBlockHashes` | artifacts/native432-lmcache-rollout-20260904/image/incident-fix-20260905/overlay/vllm/v1/core/block_pool.py:591-610 | takes all keys off one block, the primary one first, in index, table and metadata at once |
| `BlockPool.BlockPool.InsertBlockHash` | artifacts/native432-lmcache-rollout-20260904/image/incident-fix-20260905/overlay/vllm/v1/core/block_pool.py:627-647 | attaches a key as primary or secondary one, unless the block has it |
| `BlockPool.BlockPool.EmitRemoved` | artifacts/native432-lmcache-rollout-20260904/image/incident-fix-20260905/overlay/vllm/v1/core/block_pool.py:612-625 | announces each removed key once; what was owed is then settled |
| `BlockPool.BlockPool.MaybeEvictCachedBlock` | artifacts/native432-lmcache-rollout-20260904/image/incident-fix-20260905/overlay/vllm/v1/core/block_pool.py:717-738 | takes the block's keys off and announces it; tells whether there were any |
| `BlockPool.BlockPool.GetNewBlocks` | artifacts/native432-lmcache-rollout-20260904/image/incident-fix-20260905/overlay/vllm/v1/core/block_pool.py:667-715 | hands out the first n of the stable partition of the queue, prepared, or refuses and changes nothing but the clock; the whole invariant and the event accounts are kept |
| `BlockPool.BlockPool.SelectVictims` | artifacts/native432-lmcache-rollout-20260904/image/incident-fix-20260905/overlay/vllm/v1/core/block_pool.py:687-697 | the two passes over the linked list take exactly the victims of the partition, in its order |
| `BlockPool.BlockPool.Touch` | artifacts/native432-lmcache-rollout-20260904/image/incident-fix-20260905/overlay/vllm/v1/core/block_pool.py:780-796 | one more holder per mention of a block; free blocks leave the linked list, even when mentioned repeatedly |
| `BlockPool.BlockPool.FreeBlocks` | artifacts/native432-lmcache-rollout-20260904/image/incident-fix-20260905/overlay/vllm/v1/core/block_pool.py:798-831 | one holder less per mention; released blocks return to head or tail of the linked list with idle time and expiry bound, as ReleasedToQueue and ReleasedTimes say block by block |
| `BlockPool.BlockPool.Scan` | artifacts/native432-lmcache-rollout-20260904/image/incident-fix-20260905/overlay/vllm/v1/core/block_pool.py:752-767 | the walk along the links finds exactly the due blocks in queue order, and the least pending deadline of the others |
| `BlockPool.BlockPool.ExpireCachedBlocks` | artifacts/native432-lmcache-rollout-20260904/image/incident-fix-20260905/overlay/vllm/v1/core/block_pool.py:740-778 | expires exactly the due free blocks, moves them to the front, announces their keys, renews the bound; returns how many; what the scan asserts of the blocks is demanded here and proved of every run in PoolCalls.Replay |
| `BlockPool.BlockPool.EvictBlocks` | artifacts/native432-lmcache-rollout-20260904/image/incident-fix-20260905/overlay/vllm/v1/core/block_pool.py:833-850 | drops all keys of the given blocks, whatever the order, and nothing else |
| `BlockPool.BlockPool.ResetPrefixCache` | artifacts/native432-lmcache-rollout-20260904/image/incident-fix-20260905/overlay/vllm/v1/core/block_pool.py:852-887 | refused while a block is in use; else no key, no hash and no bound is left, and the accounts start anew |
| `BlockPool.BlockPool.TakeEvents` | artifacts/native432-lmcache-rollout-20260904/image/incident-fix-20260905/overlay/vllm/v1/core/block_pool.py:910-920 | hands over the queued events in order and empties the queue; no event is lost or repeated |
| `BlockPool.BlockPool.StampProtection` | artifacts/native432-lmcache-rollout-20260904/image/incident-fix-20260905/overlay/vllm/v1/core/sched/scheduler.py:2540-2553 | raises, and never lowers, the protection deadline of the given blocks |
| `BlockPool.BlockPool.GetCachedBlock` | artifacts/native432-lmcache-rollout-20260904/image/incident-fix-20260905/overlay/vllm/v1/core/block_pool.py:216-241 | the longest cached block for each group, or none as soon as one group misses |
| `BlockPool.BlockPool.CacheFullBlocks` | artifacts/native432-lmcache-rollout-20260904/image/incident-fix-20260905/overlay/vllm/v1/core/block_pool.py:243-362 | caches the items of the call one by one, keeps the invariant, ends the queue with one stored event that lists the hashes; repeats counted exactly |
| `BlockPool.BlockPool.CacheAll` | artifacts/native432-lmcache-rollout-20260904/image/incident-fix-20260905/overlay/vllm/v1/core/block_pool.py:281-321 | the loop over the new full blocks: state, hashes announced, repeats and owed announcements after all items |
| `BlockPool.BlockPool.EmitCachedBlockEvents` | artifacts/native432-lmcache-rollout-20260904/image/incident-fix-20260905/overlay/vllm/v1/core/block_pool.py:393-463 | announces reused blocks once more, changes no block, and books the announcements as repeats |
| `BlockPool.BlockPool.CachePartialBlock` | artifacts/native432-lmcache-rollout-20260904/image/incident-fix-20260905/overlay/vllm/v1/core/block_pool.py:465-564 | makes a block reachable under the hash of a boundary inside it; null blocks are left alone; a key the block has is not announced, a new one is announced last, behind the hash at the boundary before |
| `BlockPool.BlockPool.PartialEntry` | artifacts/native432-lmcache-rollout-20260904/image/incident-fix-20260905/overlay/vllm/v1/core/block_pool.py:566-589 | the key, prefix length, parent and token range of a partial entry, from the hashes at its boundary and at the one before |
| `BlockPool.BlockPool.MoveBlockHashes` | artifacts/native432-lmcache-rollout-20260904/image/incident-fix-20260905/overlay/vllm/v1/core/block_pool.py:649-665 | re-points all entries of one block to another, without any event |
| `BlockPool.BlockPool.EventAccounting` | artifacts/native432-lmcache-rollout-20260904/image/incident-fix-20260905/overlay/vllm/v1/core/block_pool.py:302-362 | announcements minus removals of a key since the last clear, handed out or queued, equal the number of blocks that have it, plus repeats |
| `PoolMeaning.VictimsInOrder` | artifacts/native432-lmcache-rollout-20260904/image/incident-fix-20260905/overlay/vllm/v1/core/block_pool.py:684-697 | of the blocks taken, unprotected ones come before protected ones, and each kind in the order of the queue |
| `PoolMeaning.ReleasedToQueue` | artifacts/native432-lmcache-rollout-20260904/image/incident-fix-20260905/overlay/vllm/v1/core/block_pool.py:808-831 | with caching on, a released block without a hash goes to the head of the queue, any other to the tail, each kind in the order in which the holders ran out; nothing else moves |
| `PoolMeaning.ReleasedTimes` | artifacts/native432-lmcache-rollout-20260904/image/incident-fix-20260905/overlay/vllm/v1/core/block_pool.py:808-831 | every mention takes one holder away; with a timeout exactly the blocks at the tail are idle from now on, and the expiry bound is the earlier of the old one and theirs |
| `PoolMeaning.UselessTakenFirst` | artifacts/native432-lmcache-rollout-20260904/image/incident-fix-20260905/overlay/vllm/v1/core/block_pool.py:813-831 | with caching on, a block released without a hash is handed out before any cached one that is not protected |
| `PoolMeaning.TouchMeans` | artifacts/native432-lmcache-rollout-20260904/image/incident-fix-20260905/overlay/vllm/v1/core/block_pool.py:780-796 | one more holder for each mention, a mentioned free block leaves the queue and is idle no more, nothing else changes |
| `PoolMeaning.CachedOnce` | artifacts/native432-lmcache-rollout-20260904/image/incident-fix-20260905/overlay/vllm/v1/core/block_pool.py:285-321 | a block cached under a longer prefix has that key alone, under the same one that key besides the others; no other block changes |
| `PoolMeaning.CachedPartially` | artifacts/native432-lmcache-rollout-20260904/image/incident-fix-20260905/overlay/vllm/v1/core/block_pool.py:512-528 | a partial entry does nothing when the block has the key, replaces keys of a shorter prefix, and joins others |
| `PoolMeaning.BatchItems` | artifacts/native432-lmcache-rollout-20260904/image/incident-fix-20260905/overlay/vllm/v1/core/block_pool.py:281-321 | the blocks cached by a call are, in order, exactly those that are neither null nor masked out, each under its own hash and with the tokens up to its end |
| `PoolMeaning.AnnouncedBatch` | artifacts/native432-lmcache-rollout-20260904/image/incident-fix-20260905/overlay/vllm/v1/core/block_pool.py:302-362 | the event of a call lists the hashes of exactly those blocks, behind the block before the first, with the whole token range |
| `PoolMeaning.ExpiredToHead` | artifacts/native432-lmcache-rollout-20260904/image/incident-fix-20260905/overlay/vllm/v1/core/block_pool.py:740-778 | exactly the free cached blocks whose idle time and protection have run out go to the head of the queue, the others stay in order |
| `PoolMeaning.BoundAttained` | artifacts/native432-lmcache-rollout-20260904/image/incident-fix-20260905/overlay/vllm/v1/core/block_pool.py:750-767 | the bound left by a scan is the end of some block's protection or some block's expiry, and not past |
| `PoolMeaning.ResetMeans` | artifacts/native432-lmcache-rollout-20260904/image/incident-fix-20260905/overlay/vllm/v1/core/block_pool.py:852-887 | with nothing in use no key, index entry or bound is left and holders stay; else nothing changes |
| `PoolCalls.Lifetime` | artifacts/native432-lmcache-rollout-20260904/image/incident-fix-20260905/overlay/vllm/v1/core/block_pool.py:166-920 | a pool is made and used by any sequence of calls: at the end the invariants hold; when no key is cached twice for a block and nothing is announced again, announcements minus removals of every key equal the blocks cached under it |
| `PoolCalls.Replay` | artifacts/native432-lmcache-rollout-20260904/image/incident-fix-20260905/overlay/vllm/v1/core/block_pool.py:143-920 | any sequence of calls on a fresh pool does what the run of the same steps does; at its end the invariants hold, and announcements minus removals of every key equal the blocks cached under it plus the repeats of the calls; the assertion of the expiry scan never fires |
| `PoolCalls.NoRepeats` | artifacts/native432-lmcache-rollout-20260904/image/incident-fix-20260905/overlay/vllm/v1/core/block_pool.py:243-463 | calls that cache each key once per block and announce nothing again add no repeats |
| `PoolCalls.ReplayIsRun` | artifacts/native432-lmcache-rollout-20260904/image/incident-fix-20260905/overlay/vllm/v1/core/block_pool.py:143-920 | the states between the calls form a run, so ownership, coherence, expiry bound and queue order hold at each of them |
| `PoolCalls.PerformOnEvents` | artifacts/native432-lmcache-rollout-20260904/image/incident-fix-20260905/overlay/vllm/v1/core/block_pool.py:393-463 | a reset forgets the repeats, and announcing reused blocks again adds exactly their hashes to them |
| `Events.NetRemoved` | artifacts/native432-lmcache-rollout-20260904/image/incident-fix-20260905/overlay/vllm/v1/core/block_pool.py:612-625 | a removed event lowers the account of its own key by one and of no other |
| `PoolInvariants.InitInv` | artifacts/native432-lmcache-rollout-20260904/image/incident-fix-20260905/overlay/vllm/v1/core/block_pool.py:166-214 | a fresh pool satisfies ownership and index coherence |
| `PoolInvariants.RemoveAllKeys` | artifacts/native432-lmcache-rollout-20260904/image/incident-fix-20260905/overlay/vllm/v1/core/block_pool.py:591-610 | removal keeps index and blocks in agreement, empties the removed blocks' key sets, and leaves other blocks' places |
| `PoolInvariants.RemoveAllCompose` | artifacts/native432-lmcache-rollout-20260904/image/incident-fix-20260905/overlay/vllm/v1/core/block_pool.py:833-850 | removing in two steps, in any order, is removing at once |
| `PoolInvariants.InsertHashKeys` | artifacts/native432-lmcache-rollout-20260904/image/incident-fix-20260905/overlay/vllm/v1/core/block_pool.py:627-647 | attaching adds the key to one block only, last in the index, and keeps coherence |
| `PoolInvariants.CacheItemsInv` | artifacts/native432-lmcache-rollout-20260904/image/incident-fix-20260905/overlay/vllm/v1/core/block_pool.py:285-321 | caching any batch keeps the invariant |
| `PoolInvariants.CachePartialInv` | artifacts/native432-lmcache-rollout-20260904/image/incident-fix-20260905/overlay/vllm/v1/core/block_pool.py:465-564 | a partial entry keeps the invariant |
| `PoolInvariants.MoveHashesIndex` | artifacts/native432-lmcache-rollout-20260904/image/incident-fix-20260905/overlay/vllm/v1/core/block_pool.py:649-665 | under every key of the source it gives way to the destination, with equal numbers; other keys keep their entries |
| `PoolInvariants.MoveHashesKeys` | artifacts/native432-lmcache-rollout-20260904/image/incident-fix-20260905/overlay/vllm/v1/core/block_pool.py:649-665 | primary key, token count and all key sets travel; third blocks keep theirs |
| `PoolInvariants.MoveHashesInv` | artifacts/native432-lmcache-rollout-20260904/image/incident-fix-20260905/overlay/vllm/v1/core/block_pool.py:649-665 | moving keeps the invariant |
| `PoolInvariants.VictimsArePrefix` | artifacts/native432-lmcache-rollout-20260904/image/incident-fix-20260905/overlay/vllm/v1/core/block_pool.py:684-697 | the victims are the first n of the partition, distinct and all free, and n blocks leave the queue |
| `PoolInvariants.ProtectedTakenLast` | artifacts/native432-lmcache-rollout-20260904/image/incident-fix-20260905/overlay/vllm/v1/core/block_pool.py:667-697 | a protected block is handed out only when every unprotected free block is |
| `PoolInvariants.GetNewResult` | artifacts/native432-lmcache-rollout-20260904/image/incident-fix-20260905/overlay/vllm/v1/core/block_pool.py:698-715 | a block handed out has one holder, no protection and, with caching, no key; all others are untouched |
| `PoolInvariants.TouchInv` | artifacts/native432-lmcache-rollout-20260904/image/incident-fix-20260905/overlay/vllm/v1/core/block_pool.py:780-796 | touching keeps ownership and keys, however often a block is mentioned |
| `PoolInvariants.ReleasedMembers` | artifacts/native432-lmcache-rollout-20260904/image/incident-fix-20260905/overlay/vllm/v1/core/block_pool.py:808-817 | the blocks released are those whose count reaches zero, each once |
| `PoolInvariants.FreeOwnedIff` | artifacts/native432-lmcache-rollout-20260904/image/incident-fix-20260905/overlay/vllm/v1/core/block_pool.py:798-831 | ownership survives a release exactly when no block is released more often than it is held |
| `PoolInvariants.FreeInv` | artifacts/native432-lmcache-rollout-20260904/image/incident-fix-20260905/overlay/vllm/v1/core/block_pool.py:798-831 | such a release keeps the whole invariant and all keys |
| `PoolInvariants.ExpireInv` | artifacts/native432-lmcache-rollout-20260904/image/incident-fix-20260905/overlay/vllm/v1/core/block_pool.py:740-778 | expiry keeps the invariant |
| `PoolInvariants.ResetInv` | artifacts/native432-lmcache-rollout-20260904/image/incident-fix-20260905/overlay/vllm/v1/core/block_pool.py:852-887 | reset keeps the invariant |
| `PoolInvariants.Conservation` | artifacts/native432-lmcache-rollout-20260904/image/incident-fix-20260905/overlay/vllm/v1/core/block_pool.py:889-908 | free blocks, held blocks and the null block make up the pool |
| `PoolInvariants.HoldersCount` | artifacts/native432-lmcache-rollout-20260904/image/incident-fix-20260905/overlay/vllm/v1/core/block_pool.py:591-665 | the number of blocks that have a key is the length of its index entry |
| `PoolTiming.NextExpiryBound` | artifacts/native432-lmcache-rollout-20260904/image/incident-fix-20260905/overlay/vllm/v1/core/block_pool.py:750-767 | the bound left by a scan is not later than any pending expiry |
| `PoolTiming.ScanAssertionHolds` | artifacts/native432-lmcache-rollout-20260904/image/incident-fix-20260905/overlay/vllm/v1/core/block_pool.py:761-762 | the assertion inside the scan never fires |
| `PoolTiming.ExpireExact` | artifacts/native432-lmcache-rollout-20260904/image/incident-fix-20260905/overlay/vllm/v1/core/block_pool.py:740-778 | despite the early exits, a free cached block loses its keys exactly when idle time and protection have run out, and no other block loses any |
| `PoolTiming.ExpireTiming` | artifacts/native432-lmcache-rollout-20260904/image/incident-fix-20260905/overlay/vllm/v1/core/block_pool.py:740-778 | expiry keeps the expiry bound and the queue order |
| `PoolTiming.FreeTiming` | artifacts/native432-lmcache-rollout-20260904/image/incident-fix-20260905/overlay/vllm/v1/core/block_pool.py:818-831 | a release keeps the expiry bound and the queue order |
| `PoolTiming.GetNewTiming` | artifacts/native432-lmcache-rollout-20260904/image/incident-fix-20260905/overlay/vllm/v1/core/block_pool.py:667-715 | allocation keeps them |
| `PoolTiming.LongestIdleFirst` | artifacts/native432-lmcache-rollout-20260904/image/incident-fix-20260905/overlay/vllm/v1/core/block_pool.py:667-697 | of two unprotected cached blocks of which one is evicted, it is the one idle longer |
| `PoolRuns.EveryRunKeepsInv` | artifacts/native432-lmcache-rollout-20260904/image/incident-fix-20260905/overlay/vllm/v1/core/block_pool.py:144-166 | in every state reachable by any calls: ownership, coherence, clean null block, free + held + 1 = size |
| `PoolRuns.EveryRunKeepsTiming` | artifacts/native432-lmcache-rollout-20260904/image/incident-fix-20260905/overlay/vllm/v1/core/block_pool.py:740-831 | if keys are attached to held blocks only: the expiry bound is never late and the queue is in idle order, in every reachable state |
| `PoolSteps.VictimRounds` | artifacts/native432-lmcache-rollout-20260904/image/incident-fix-20260905/overlay/vllm/v1/core/kv_cache_utils.py:320-353 | two filtered passes equal the prefix of the stable partition |
| `CacheSteps.NothingRepeated` | artifacts/native432-lmcache-rollout-20260904/image/incident-fix-20260905/overlay/vllm/v1/core/block_pool.py:285-321 | a caller that attaches each key to each block once repeats no announcement |
| `CacheSteps.MoveIsInsertAll` | artifacts/native432-lmcache-rollout-20260904/image/incident-fix-20260905/overlay/vllm/v1/core/block_pool.py:662-665 | taking the keys off one block and attaching them in turn to the other is the move |
| `HashViews.ResolveIsView` | artifacts/native432-lmcache-rollout-20260904/image/incident-fix-20260905/overlay/vllm/v1/core/kv_cache_utils.py:2715-2745 | the shortcut for equal block sizes returns what the view would |
| `BlockHashing.DigestOfPrefix` | artifacts/native432-lmcache-rollout-20260904/image/incident-fix-20260905/overlay/vllm/v1/core/kv_cache_utils.py:784-825 | a block's hash does not depend on tokens behind it |
| `HashViews.ResolvedAt` | artifacts/native432-lmcache-rollout-20260904/image/incident-fix-20260905/overlay/vllm/v1/core/kv_cache_utils.py:2684-2745 | entry i of the view is the hash of the last fine block inside coarse block i, and there is one for each whole coarse block |
| `BlockHashing.DigestsEqual` | artifacts/native432-lmcache-rollout-20260904/image/incident-fix-20260905/overlay/vllm/v1/core/kv_cache_utils.py:625-652 | with an injective hash two requests agree on hash i exactly when they agree on all tokens up to its end and on the tags that enter it |
| `BlockHashing.ViewsEqual` | artifacts/native432-lmcache-rollout-20260904/image/incident-fix-20260905/overlay/vllm/v1/core/kv_cache_utils.py:2697-2709 | the same for entry i of a coarser view and its first i + 1 blocks |
| `BlockHashing.EqualTagsViews` | artifacts/native432-lmcache-rollout-20260904/image/incident-fix-20260905/overlay/vllm/v1/core/kv_cache_utils.py:2697-2709 | with equal LoRA and salt, view entries agree exactly when the token prefixes do |
| `BlockHashing.TagsToldApart` | artifacts/native432-lmcache-rollout-20260904/image/incident-fix-20260905/overlay/vllm/v1/core/kv_cache_utils.py:587-622 | from the second block on two requests share a hash exactly when tokens, LoRA and salt agree, an empty salt being none |
| `BlockHashing.SameAdapter` | artifacts/native432-lmcache-rollout-20260904/image/incident-fix-20260905/overlay/vllm/v1/core/kv_cache_utils.py:606-622 | requests of one adapter share a hash exactly when tokens and salt agree, an empty salt being none |
| `BlockHashing.SameAdapterViews` | artifacts/native432-lmcache-rollout-20260904/image/incident-fix-20260905/overlay/vllm/v1/core/kv_cache_utils.py:606-622 | the same for entries of a coarser view |
| `BlockHashing.FirstBlockToldApart` | artifacts/native432-lmcache-rollout-20260904/image/incident-fix-20260905/overlay/vllm/v1/core/kv_cache_utils.py:606-622 | on the first block too, but for an adapter's name and a salt of the same text |
| `BlockHashing.FirstBlockConfusion` | artifacts/native432-lmcache-rollout-20260904/image/incident-fix-20260905/overlay/vllm/v1/core/kv_cache_utils.py:606-622 | on the first block a LoRA name and a salt of the same text give the same hash |
| `BlockHashing.Request.constructor` | artifacts/native432-lmcache-rollout-20260904/image/incident-fix-20260905/overlay/vllm/v1/request.py:214-219 | a new request has the hashes of its prompt from scratch |
| `BlockHashing.Request.AppendOutputTokenIds` | artifacts/native432-lmcache-rollout-20260904/image/incident-fix-20260905/overlay/vllm/v1/request.py:260-276 | however tokens arrive, one hash per full block, equal to hashing everything from scratch; old hashes stay |
| `BlockHashing.Request.Hasher` | artifacts/native432-lmcache-rollout-20260904/image/incident-fix-20260905/overlay/vllm/v1/core/kv_cache_utils.py:784-825 | the loop returns exactly the missing hashes |
| `KVLayout.PackedLayout` | artifacts/native432-lmcache-rollout-20260904/image/incident-fix-20260905/overlay/vllm/v1/core/kv_cache_utils.py:1387-1409 | the offsets computed list every layer at the sum of the pages before it, and the stride is the widest group |
| `KVLayout.GroupPagesDisjoint` | artifacts/native432-lmcache-rollout-20260904/image/incident-fix-20260905/overlay/vllm/v1/core/kv_cache_utils.py:1387-1409 | pages of two layers of one group never overlap in a block |
| `KVLayout.BlockPagesDisjoint` | artifacts/native432-lmcache-rollout-20260904/image/incident-fix-20260905/overlay/vllm/v1/core/kv_cache_utils.py:1390-1394 | pages in different blocks never overlap, even across groups |
| `KVLayout.PagesInSlab` | artifacts/native432-lmcache-rollout-20260904/image/incident-fix-20260905/overlay/vllm/v1/core/kv_cache_utils.py:1541-1559 | every page lies inside the slab, for whatever number of blocks it is cut to |
| `KVLayout.LayerListed` | artifacts/native432-lmcache-rollout-20260904/image/incident-fix-20260905/overlay/vllm/v1/core/kv_cache_utils.py:1400-1406 | every layer is listed at its own offset |
| `KVLayout.LayerFound` | artifacts/native432-lmcache-rollout-20260904/image/incident-fix-20260905/overlay/vllm/v1/core/kv_cache_utils.py:1400-1406 | nothing but the layers that start there is listed |
| `KVPlan.PlanSized` | artifacts/native432-lmcache-rollout-20260904/image/incident-fix-20260905/overlay/vllm/v1/core/kv_cache_utils.py:1532-1557 | in every branch each tensor is its bytes per block times the block count |
| `KVPlan.BlocksFit` | artifacts/native432-lmcache-rollout-20260904/image/incident-fix-20260905/overlay/vllm/v1/core/kv_cache_utils.py:1092-1109 | the block count is the largest whose bytes fit the memory |
| `KVPlan.AdmissionImpliesCapacity` | artifacts/native432-lmcache-rollout-20260904/image/incident-fix-20260905/overlay/vllm/v1/core/kv_cache_utils.py:2277-2352 | in the lockstep and general branches, and in the packed one unless all groups are uniform, an admitted worker gets the blocks counted for one maximal request; PlanMeaning.RequestFits says what these are |
| `KVPlan.PlanWithinCapacity` | artifacts/native432-lmcache-rollout-20260904/image/incident-fix-20260905/overlay/vllm/v1/core/kv_cache_utils.py:1562-1644 | planned tensors never exceed the memory planned against, with and without override |
| `KVPlan.ConfigsExistIff` | artifacts/native432-lmcache-rollout-20260904/image/incident-fix-20260905/overlay/vllm/v1/core/kv_cache_utils.py:2597-2636 | the planner goes through exactly when every worker is admitted and plannable, and has memory for one block or an overridden count |
| `KVPlan.AdmittedWithoutBlock` | artifacts/native432-lmcache-rollout-20260904/image/incident-fix-20260905/overlay/vllm/v1/core/kv_cache_utils.py:2343-2352 | an admitted worker on which the shrink divides by zero: its layer asks for no memory, and there is less than a page |
| `KVPlan.AdmittedHoldsOne` | artifacts/native432-lmcache-rollout-20260904/image/incident-fix-20260905/overlay/vllm/v1/core/kv_cache_utils.py:2277-2352 | it cannot happen when a request needs a block, or each layer of a single uniform group a page |
| `KVPlan.ConfigsSound` | artifacts/native432-lmcache-rollout-20260904/image/incident-fix-20260905/overlay/vllm/v1/core/kv_cache_utils.py:2496-2636 | all workers share one count, the least of their plans, with every tensor exact and within capacity |
| `KVPlan.CommonCountSuffices` | artifacts/native432-lmcache-rollout-20260904/image/incident-fix-20260905/overlay/vllm/v1/core/kv_cache_utils.py:2586-2636 | the common count still holds every request each worker alone could hold |
| `KVPlan.LayerInSlab` | artifacts/native432-lmcache-rollout-20260904/image/incident-fix-20260905/overlay/vllm/v1/core/kv_cache_utils.py:1541-1559 | after the shrink each packed layer has a tensor at its offset whose slab holds all its pages |
| `PlanMeaning.BlockTakesIs` | artifacts/native432-lmcache-rollout-20260904/image/incident-fix-20260905/overlay/vllm/v1/core/kv_cache_utils.py:1061-1089 | a block takes all slots in lockstep, the page of a single uniform group, the widest group in the packed layout, else a page for each layer of the largest group |
| `PlanMeaning.CountFits` | artifacts/native432-lmcache-rollout-20260904/image/incident-fix-20260905/overlay/vllm/v1/core/kv_cache_utils.py:1092-1109 | the block count of a plan is the largest for which these bytes fit the memory |
| `PlanMeaning.PlanExists` | artifacts/native432-lmcache-rollout-20260904/image/incident-fix-20260905/overlay/vllm/v1/core/kv_cache_utils.py:1562-1644 | a worker has a plan exactly when a block takes any bytes, groups that share pages have pages of one size, and none is empty in lockstep; an overridden count is taken over |
| `PlanMeaning.AdmittedLockstep` | artifacts/native432-lmcache-rollout-20260904/image/incident-fix-20260905/overlay/vllm/v1/core/kv_cache_utils.py:2288-2304 | in lockstep a worker is admitted exactly when there is memory, enough for the blocks of the group that needs most, each over its own pages |
| `PlanMeaning.AdmittedSingle` | artifacts/native432-lmcache-rollout-20260904/image/incident-fix-20260905/overlay/vllm/v1/core/kv_cache_utils.py:2306-2314 | a single uniform group is admitted exactly when there is memory, enough for all its layers together |
| `PlanMeaning.AdmittedUniform` | artifacts/native432-lmcache-rollout-20260904/image/incident-fix-20260905/overlay/vllm/v1/core/kv_cache_utils.py:2315-2339 | several uniform groups are admitted exactly when there is memory, enough for the pages of each group times the most layer tuples of any |
| `PlanMeaning.AdmittedMixed` | artifacts/native432-lmcache-rollout-20260904/image/incident-fix-20260905/overlay/vllm/v1/core/kv_cache_utils.py:2341-2352 | other groups are admitted exactly when there is memory, their pages are of one size, and the largest number of layers times the page times the blocks of all groups together fits |
| `PlanMeaning.RequestFits` | artifacts/native432-lmcache-rollout-20260904/image/incident-fix-20260905/overlay/vllm/v1/core/kv_cache_utils.py:2277-2352 | an admitted worker has the blocks of one maximal request: of all groups together, in lockstep of the group that needs most |
| `PlanMeaning.RequestFitsAll` | artifacts/native432-lmcache-rollout-20260904/image/incident-fix-20260905/overlay/vllm/v1/core/kv_cache_utils.py:2586-2636 | so has every worker after all were brought to one count |
| `PlanMeaning.ConfigsExist` | artifacts/native432-lmcache-rollout-20260904/image/incident-fix-20260905/overlay/vllm/v1/core/kv_cache_utils.py:2597-2636 | the planner goes through exactly when every worker is admitted, has a plan, and holds one block, unless the count is given or there is no layer to hold |
| `PlanTensors.OwnTensor` | artifacts/native432-lmcache-rollout-20260904/image/incident-fix-20260905/overlay/vllm/v1/core/kv_cache_utils.py:1467-1483 | after the shrink each layer in lockstep, and of a single uniform group, has a tensor of its own, in order, of its page times the count, and there are no others |
| `PlanTensors.PoolShared` | artifacts/native432-lmcache-rollout-20260904/image/incident-fix-20260905/overlay/vllm/v1/core/kv_cache_utils.py:1611-1638 | after the shrink the j-th tensor of the general layout belongs to exactly the j-th layers of the groups; there are as many as the largest group has layers |
| `PlanTensors.SlabShared` | artifacts/native432-lmcache-rollout-20260904/image/incident-fix-20260905/overlay/vllm/v1/core/kv_cache_utils.py:1541-1559 | after the shrink a tensor of the slab belongs to exactly the layers that start at its offset, covers the slab, and has the widest group as its stride |
| `PlanTensors.MemoryKept` | artifacts/native432-lmcache-rollout-20260904/image/incident-fix-20260905/overlay/vllm/v1/core/kv_cache_utils.py:1562-1644 | after the shrink the tensors of a worker, or its one slab, take no more than what may be planned with |
| `KVPlanner.PackedPlan` | artifacts/native432-lmcache-rollout-20260904/image/incident-fix-20260905/overlay/vllm/v1/core/kv_cache_utils.py:1541-1559 | one tensor per offset in ascending order, each over the whole slab |
| `KVPlanner.GeneralPlan` | artifacts/native432-lmcache-rollout-20260904/image/incident-fix-20260905/overlay/vllm/v1/core/kv_cache_utils.py:1611-1638 | pool i is shared by the i-th layer of every group that has one |
| `KVPlanner.LockstepPlan` | artifacts/native432-lmcache-rollout-20260904/image/incident-fix-20260905/overlay/vllm/v1/core/kv_cache_utils.py:1467-1483 | one tensor for each layer of each group |
| `KVPlanner.PlanWorker` | artifacts/native432-lmcache-rollout-20260904/image/incident-fix-20260905/overlay/vllm/v1/core/kv_cache_utils.py:1562-1644 | bytes per block, block count and tensors of a worker computed by loops over its groups, or where it stops |
| `KVPlanner.Admit` | artifacts/native432-lmcache-rollout-20260904/image/incident-fix-20260905/overlay/vllm/v1/core/kv_cache_utils.py:2277-2352 | the admission check with its needed bytes summed over the groups of each branch; what it comes to is spelled out in PlanMeaning, branch by branch |
| `KVPlanner.CountBlocks` | artifacts/native432-lmcache-rollout-20260904/image/incident-fix-20260905/overlay/vllm/v1/core/kv_cache_utils.py:1092-1109 | the count is the override, or the one for which a block more would not fit |
| `KVPlanner.ShrinkAll` | artifacts/native432-lmcache-rollout-20260904/image/incident-fix-20260905/overlay/vllm/v1/core/kv_cache_utils.py:2621-2636 | sets every configuration in place to the smallest count, with sizes rescaled; stops on an inexact size |
| `KVPlanner.GetKVCacheConfigs` | artifacts/native432-lmcache-rollout-20260904/image/incident-fix-20260905/overlay/vllm/v1/core/kv_cache_utils.py:2496-2636 | admission, plan and shrink of all workers together, with the outcome of PlanMeaning.ConfigsExist |
| `WorkerAdapter.LMCacheMPWorkerAdapter.SubmitStoreRequest` | artifacts/native432-lmcache-rollout-20260904/image/incident-fix-20260905/overlay/lmcache/integration/vllm/vllm_multi_process_adapter.py:1421-1469 | a store is in flight afterwards exactly for a writer on a healthy server |
| `WorkerAdapter.LMCacheMPWorkerAdapter.SubmitRetrieveRequest` | artifacts/native432-lmcache-rollout-20260904/image/incident-fix-20260905/overlay/lmcache/integration/vllm/vllm_multi_process_adapter.py:1472-1524 | dropped with all blocks flagged when the server is down, else pending; the account stays exact precisely when none of the same id is outstanding |
| `WorkerAdapter.LMCacheMPWorkerAdapter.GetBlockIdsWithLoadErrors` | artifacts/native432-lmcache-rollout-20260904/image/incident-fix-20260905/overlay/lmcache/integration/vllm/vllm_multi_process_adapter.py:1870-1877 | hands the flagged blocks out and forgets them, without losing that they were surfaced |
| `WorkerAdapter.LMCacheMPWorkerAdapter.GetFinished` | artifacts/native432-lmcache-rollout-20260904/image/incident-fix-20260905/overlay/lmcache/integration/vllm/vllm_multi_process_adapter.py:1598-1731 | reports every finished retrieve once, or all pending ones when the server is down, besides the dropped ones, each successful or with all blocks surfaced; a store is returned exactly when the engine has finished its id, now or before, and none is in flight or one has finished, and it was not returned yet |
| `WorkerAdapter.LMCacheMPWorkerAdapter.DrainRetrieves` | artifacts/native432-lmcache-rollout-20260904/image/incident-fix-20260905/overlay/lmcache/integration/vllm/vllm_multi_process_adapter.py:1626-1640 | when the server is down every pending retrieve is given up with its blocks flagged |
| `WorkerAdapter.LMCacheMPWorkerAdapter.PollRetrieves` | artifacts/native432-lmcache-rollout-20260904/image/incident-fix-20260905/overlay/lmcache/integration/vllm/vllm_multi_process_adapter.py:1677-1705 | every finished retrieve leaves the pending ones, and a failed one has its blocks flagged |
| `WorkerAdapter.LMCacheMPWorkerAdapter.ProcessFinishedStores` | artifacts/native432-lmcache-rollout-20260904/image/incident-fix-20260905/overlay/lmcache/integration/vllm/vllm_multi_process_adapter.py:1578-1595 | the ids returned are those the engine has finished and whose stores are done, or which have none, and that were not returned yet; the others wait, and what was seen is what was returned or waits |
| `WorkerAdapter.CountSubmitted` | artifacts/native432-lmcache-rollout-20260904/image/incident-fix-20260905/overlay/lmcache/integration/vllm/vllm_multi_process_adapter.py:1472-1524 | one more retrieve keeps submitted = reported + pending + dropped exactly when none of its id is outstanding |
| `SchedulerLookup.LMCacheMPSchedulerAdapter.MaybeSubmitLookupRequest` | artifacts/native432-lmcache-rollout-20260904/image/incident-fix-20260905/overlay/lmcache/integration/vllm/vllm_multi_process_adapter.py:692-766 | a lookup starts exactly when all servers are up, none of the id is under way and all reply; else one server is marked down at most |
| `SchedulerLookup.LMCacheMPSchedulerAdapter.CheckLookupResult` | artifacts/native432-lmcache-rollout-20260904/image/incident-fix-20260905/overlay/lmcache/integration/vllm/vllm_multi_process_adapter.py:808-884 | while healthy: None until all servers have answered, then the smallest count in tokens, the same on every later call; a server that times out marks the adapter down; every query sent goes to a server that had not answered |
| `SchedulerLookup.LMCacheMPSchedulerAdapter.PollServers` | artifacts/native432-lmcache-rollout-20260904/image/incident-fix-20260905/overlay/lmcache/integration/vllm/vllm_multi_process_adapter.py:841-865 | queries exactly the servers not heard yet and takes in exactly the counts reported, until one server fails |
| `SchedulerLookup.LMCacheMPSchedulerAdapter.Settle` | artifacts/native432-lmcache-rollout-20260904/image/incident-fix-20260905/overlay/lmcache/integration/vllm/vllm_multi_process_adapter.py:867-884 | the smallest count becomes the result and all tails beyond it are freed |
| `SchedulerLookup.LMCacheMPSchedulerAdapter.FreeInconsistentLookupLocks` | artifacts/native432-lmcache-rollout-20260904/image/incident-fix-20260905/overlay/lmcache/integration/vllm/vllm_multi_process_adapter.py:768-805 | every server that reported more keeps locks on the first common chunks only, up to chunks it cannot have looked up |
| `SchedulerLookup.LMCacheMPSchedulerAdapter.CleanupLookupResult` | artifacts/native432-lmcache-rollout-20260904/image/incident-fix-20260905/overlay/lmcache/integration/vllm/vllm_multi_process_adapter.py:893-902 | the lookup of one request is forgotten, of no other |
| `SchedulerLookup.LMCacheMPSchedulerAdapter.FreeLookupLocks` | artifacts/native432-lmcache-rollout-20260904/image/incident-fix-20260905/overlay/lmcache/integration/vllm/vllm_multi_process_adapter.py:912-956 | the chunks of the range are freed on every server, a partial last chunk excepted; nothing on an unhealthy adapter |
| `SchedulerLookup.TailFreed` | artifacts/native432-lmcache-rollout-20260904/image/incident-fix-20260905/overlay/lmcache/integration/vllm/vllm_multi_process_adapter.py:768-805 | with hits within what was looked up, a server locks exactly the first common chunks |
| `SchedulerLookup.TailRange` | artifacts/native432-lmcache-rollout-20260904/image/incident-fix-20260905/overlay/lmcache/integration/vllm/vllm_multi_process_adapter.py:788-805 | the freed token range is, in chunks, the tail beyond the common count |
| `Connector.LMCacheMPConnector.GetNumNewMatchedTokens` | artifacts/native432-lmcache-rollout-20260904/image/incident-fix-20260905/overlay/lmcache/integration/vllm/lmcache_mp_connector.py:731-809 | none for a preempted request or a down server; None only while servers are at work; else the tokens found beyond the computed ones, one less on a full hit; the hits are noted, the computed ones cut down to the alignment |
| `Connector.LMCacheMPConnector.UpdateStateAfterAlloc` | artifacts/native432-lmcache-rollout-20260904/image/incident-fix-20260905/overlay/lmcache/integration/vllm/lmcache_mp_connector.py:844-921 | after the first allocation the request waits for a load exactly when the servers have more than the engine; with no server over-reporting, every server is left with no lock when nothing is retrieved, else with the common chunks from the first one the engine does not have whole; later calls free nothing |
| `Connector.LMCacheMPConnector.TailsAreFreed` | artifacts/native432-lmcache-rollout-20260904/image/incident-fix-20260905/overlay/lmcache/integration/vllm/lmcache_mp_connector.py:890-917 | before that, every server of a settled lookup locks exactly the common chunks |
| `Connector.RoundedDown` | artifacts/native432-lmcache-rollout-20260904/image/incident-fix-20260905/overlay/lmcache/integration/vllm/lmcache_mp_connector.py:788-793 | the noted hit is the largest aligned number that is not greater |
| `ParallelStrategy.SingleWriter` | artifacts/native432-lmcache-rollout-20260904/image/incident-fix-20260905/overlay/lmcache/integration/vllm/vllm_multi_process_adapter.py:299-330 | every piece on every server has exactly one writer, for replicated and split caches |
| `ParallelStrategy.WhoWritesWhat` | artifacts/native432-lmcache-rollout-20260904/image/incident-fix-20260905/overlay/lmcache/integration/vllm/vllm_multi_process_adapter.py:299-330 | servers have contiguous ranks, as many each; of a split cache every rank writes its own piece, of a replicated one the first rank of a stage, or of a server when there are several |
| `ParallelStrategy.WritersInRange` | artifacts/native432-lmcache-rollout-20260904/image/incident-fix-20260905/overlay/lmcache/integration/vllm/lmcache_mp_connector.py:300-372 | every rank is routed to a server that there is and has a piece in range |
| `L2Sweep.L2Lifecycle.ScanOnce` | dgx_deploy/lmcache_lifecycle.py:148-233 | removes the idle files, then, only when the rest is above the limit, the shortest run of oldest files down to the rounded product of limit and ratio; entries and bytes before equal kept + expired + evicted; totals accumulate |
| `L2Sweep.L2Lifecycle.ExpirePass` | dgx_deploy/lmcache_lifecycle.py:161-187 | the first pass leaves exactly the files younger than the time to live |
| `L2Sweep.L2Lifecycle.Evict` | dgx_deploy/lmcache_lifecycle.py:189-217 | removes oldest files until the rest is at the target, no further |
| `L2Sweep.TrimIsShortest` | dgx_deploy/lmcache_lifecycle.py:189-196 | that many removals reach the target and no fewer do |
| `L2Sweep.SortByMtime` | dgx_deploy/lmcache_lifecycle.py:191-193 | a stable sort by modification time |
| `L2Sweep.StableSortUnique` | dgx_deploy/lmcache_lifecycle.py:191-193 | a stable sort is unique, so the algorithm does not matter |
| `L2Sweep.FreshFiles` | dgx_deploy/lmcache_lifecycle.py:164-186 | a file survives the first pass exactly when it is younger than the time to live |
| `NmState.ParseNmConnectionState` | dgx_deploy/fabric.py:87-122 | accepts exactly rows with identity, at most one target and at most one active profile, and returns those |
| `NmState.ReadNmState` | dgx_deploy/fabric.py:87-122 | whatever rows a node prints for its profiles, parsing them succeeds, with name and UUID of the target exactly when it exists and of the active profile exactly when there is one |
| `DeploymentEngine.DeploymentEngine.Update` | dgx_deploy/lifecycle.py:749-778 | an update succeeds unless one of its commands was made to fail, and then both roles run the prescribed container, with the profile active if the fabric is managed; on failure the recovery succeeds exactly when both captured containers can come back, both nodes are then as captured, and a container the recovery refuses is gone; whatever was stopped or removed was a container of this deployment |
| `DeploymentEngine.DeploymentEngine.LostPair` | dgx_deploy/lifecycle.py:914-965 | a pair that passes the ownership check, so that an update starts, and whose failed update is not recovered and leaves no container |
| `DeploymentEngine.DeploymentEngine.Remote` | dgx_deploy/lifecycle.py:683-697 | what one command does to a node, whether it succeeds or fails midway, when it succeeds, and its record with the state it met; stopping and removing demand a container of this deployment that has just passed a check |
| `DeploymentEngine.DeploymentEngine.Attempt` | dgx_deploy/lifecycle.py:755-763 | however far the steps get, each node stays between its old and its new state; success means both roles run the prescribed containers; without a command made to fail it succeeds on an owned pair |
| `DeploymentEngine.DeploymentEngine.AssertOwned` | dgx_deploy/lifecycle.py:380-405 | accepts exactly a container of the prescribed name and role that is labelled for this deployment or, in production, for the legacy one with its image, or has the locked image and all its labels |
| `DeploymentEngine.DeploymentEngine.ApplyFabric` | dgx_deploy/lifecycle.py:329-342 | on success the profile of a managed fabric exists and is active on both nodes, containers stay as they are; it fails only on a failed command |
| `DeploymentEngine.DeploymentEngine.CreateAll` | dgx_deploy/lifecycle.py:698-703 | on success both nodes have the prescribed container, not running; it fails only on a failed command or where a container is left |
| `DeploymentEngine.DeploymentEngine.Verify` | dgx_deploy/lifecycle.py:715-735 | success means both containers run with image, command and labels as prescribed; on such containers it fails only on failed commands, given any attempts |
| `DeploymentEngine.DeploymentEngine.TakeDown` | dgx_deploy/lifecycle.py:683-697 | on success nothing runs, or nothing is left; a node changes only when its container belongs to this deployment, and a foreign container stops the update; it fails for no other reason than a failed command or a running container to be removed |
| `DeploymentEngine.DeploymentEngine.StartAll` | dgx_deploy/lifecycle.py:705-713 | on success both roles run, otherwise as they were; every command that starts the head was issued while the worker ran; it fails only on a failed command or a container of somebody else |
| `DeploymentEngine.DeploymentEngine.Rollback` | dgx_deploy/lifecycle.py:874-974 | from wherever an update has got to, brings both nodes back exactly when the captured containers can come back; one that is refused is gone |
| `DeploymentEngine.DeploymentEngine.RestoreFabricState` | dgx_deploy/lifecycle.py:519-592 | from what is parsed of each node before and now, brings back profile existence, UUID and the active profile from every state an update leaves |
| `DeploymentEngine.DeploymentEngine.PlanOne` | dgx_deploy/lifecycle.py:544-562 | refuses exactly a target that is gone or another one, and an active profile that is neither the target nor the captured one, or another one of its name; after an update it never does, and its commands bring back the captured network |
| `DeploymentEngine.DeploymentEngine.ReadBackOne` | dgx_deploy/lifecycle.py:577-592 | accepts exactly when target and active profile are there, or missing, as captured, with the captured UUIDs |
| `DeploymentEngine.DeploymentEngine.RemoveRollbackTargets` | dgx_deploy/lifecycle.py:826-847 | removes what an update left, each container only after its check, and the checks never refuse it |
| `DeploymentEngine.DeploymentEngine.AssertReplaceable` | dgx_deploy/lifecycle.py:832-844 | accepts exactly a container of the captured name, with the captured or the prescribed image, labelled for this deployment or as captured |
| `DeploymentEngine.DeploymentEngine.RecreateAll` | dgx_deploy/lifecycle.py:917-973 | creates the captured containers anew and starts those that ran, unless one is refused; a refused one stays away |
| `DeploymentEngine.DeploymentEngine.BuildOptions` | dgx_deploy/lifecycle.py:917-969 | exactly when there is no empty security option, incomplete ulimit, empty label, bad environment entry or incomplete mount: every option of the create command, with its texts built one by one, labels sorted by key; what was missing is not given |
| `DeploymentEngine.DeploymentEngine.VerifyRollback` | dgx_deploy/lifecycle.py:788-822 | accepts exactly containers equal to the captured ones, options of device requests included, but for the order of the mounts |
| `Deployment.ActionsRestore` | dgx_deploy/lifecycle.py:556-562 | the commands listed from the two parsed states all apply and undo exactly what the update did |
| `Containers.RecreatableIff` | dgx_deploy/lifecycle.py:917-973 | a captured container comes back as it was exactly when nothing in it is refused, nothing missing is filled in, its labels, mounts, ulimits and variables are read as they were meant, and it asks for all GPUs in one plain request or for none |
| `Containers.SameCommand` | dgx_deploy/lifecycle.py:950-965 | two containers with different labels, and two with different mounts, for which the same command is issued |
| `Containers.LabelsKeptIff` | dgx_deploy/lifecycle.py:950-952 | labels come back exactly when the image adds none and each key with an equals sign is in the image too and leaves the label it turns into as it is |
| `Containers.MountsKeptIff` | dgx_deploy/lifecycle.py:960-967 | mounts come back exactly when no comma, quote or line break is in their texts |
| `Containers.UlimitsKeptIff` | dgx_deploy/lifecycle.py:937-944 | ulimits come back exactly when each has its soft limit and no equals sign in its name |
| `Containers.EntriesKeptIff` | dgx_deploy/lifecycle.py:954-957 | environment entries come back exactly when no bare name has a value at the client and the image sets no further variable |
| `Deployment.OwnedYetLost` | dgx_deploy/lifecycle.py:948-965 | a container of the deployment with an empty label, or with a mount in memory, passes the ownership check and cannot be created anew |

## Left out

- Block pool: metrics, logging, usage figures and the reading of the clock, which is a parameter.
- CacheFullBlocks: token ids, LoRA fields and extra keys of the stored event are not modelled; the token range stands for the ids.
- EventAccounting: for events that carry whole hashes; the option that cuts them to 64 bits merges keys.
- StampProtection: the time now plus the protection period is one parameter, and the request's blocks are one list.
- Claims about the free queue the program does not keep are not stated, such as unhashed blocks always preceding hashed ones, which evicting a free block breaks.
- Request: multimodal features and prompt embeddings do not enter the hashes; with several multimodal items the incremental hasher starts from the last item only.
- Hash functions, their serialization and the random seed are parameters.
- KVPlan: how specs are grouped, unified and projected to workers, the automatic maximal length, and the memory a spec needs are inputs; UniformTypeKVCacheSpecs is not part of this model, its page is taken to hold a page of each layer.
- AdmissionImpliesCapacity: not for workers all of whose groups are uniform, outside lockstep: their needed bytes are counted in layer tuples and per layer, from specs outside this model, and not in blocks.
- GetFinished: polling is one parameter per call; submissions that run concurrently with a call, telemetry and the lazy-offload variant, which repeats the retrieve half, are not modelled.
- SubmitStoreRequest: a second store of an id replaces the first, as in the program; no claim that every single store was waited for.
- CheckLookupResult: server replies are parameters; a reply lost to an earlier timeout of another server is not represented.
- Connector: block bookkeeping of the trackers and everything after the first allocation; LMCacheMPRequestTracker is not part of this model, its needs_retrieve() is taken to compare the two hit counts.
- ParallelStrategy: data parallelism, which the connector refuses with several servers.
- TrimTarget: the target is the exact product rounded down, as integers and rationals; the program multiplies in floating point, which can differ by rounding.
- ScanOnce: directory traversal, the marker file, changes from outside during a sweep and operating-system errors.
- ParseNmConnectionState: splitting the text into rows and fields.
- Update: shell, container and network tools are abstract commands on a node; the state file, its hash and the staging copy are not modelled, and a failure of that copy is not caught by the program; profile names are taken to be unique; a capture that fails ends the call before anything is changed and is left out.
- Deployment: settings of a network profile other than its existence, UUID and activity are not restored by the program and not part of the model; values docker never reports (a field of another type, an explicit null) are not represented; the recovery of an update without a captured pair, and apply on a non-empty target, are not modelled.
- Configuration files, rendering, redaction, fetching and HTTP handlers.
