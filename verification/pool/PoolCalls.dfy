// Any sequence of calls of the pool's methods, from its construction on, is a run of
// PoolRuns.dfy; so what holds of every run holds of the real pool and of its event log.
module PoolCalls {
  import opened Wrappers
  import opened BlockKeys
  import opened HashViews
  import opened PoolModel
  import opened PoolInvariants
  import opened PoolTiming
  import opened PoolRuns
  import opened PoolSteps
  import opened CacheSteps
  import opened Events
  import opened BlockPool
  import opened FreeQueue

  datatype Call =
    | CallGetNew(n: nat, now: int)
    | CallTouch(ids: seq<nat>)
    | CallFree(ids: seq<nat>, now: int)
    | CallCacheFull(hashes: seq<Bytes>, ids: seq<nat>, cached: nat, full: nat, blockSize: nat, group: nat,
                    mask: Option<seq<bool>>)
    | CallCachePartial(hashes: seq<Bytes>, block: nat, numTokens: nat, group: nat, blockSize: nat)
    | CallMove(src: nat, dst: nat)
    | CallEvict(gone: set<nat>)
    | CallExpire(now: int)
    | CallReset
    | CallProtect(ids: seq<nat>, until: int)
    | CallTakeEvents
    | CallEmitCached(hashes: seq<Bytes>, numCached: nat, blockSize: nat, group: nat)

  // What the methods demand whatever the state.
  predicate Formed(h: nat, call: Call) {
    match call
    case CallCacheFull(hashes, ids, cached, full, blockSize, group, mask) =>
      Fits(h, blockSize) && (cached < full ==> BatchOf(h, call).Ok())
    case CallCachePartial(hashes, b, numTokens, group, blockSize) =>
      && group < GROUP_LIMIT
      && (b != NULL_BLOCK ==>
            && Fits(h, blockSize) && h < blockSize && numTokens % blockSize != 0
            && numTokens % h == 0 && 0 < numTokens / h <= |hashes|)
    case CallEmitCached(hashes, numCached, blockSize, group) =>
      group < GROUP_LIMIT && Fits(h, blockSize) && numCached <= |Resolve(hashes, h, blockSize)|
    case _ => true
  }

  function BatchOf(h: nat, call: Call): Batch
    requires call.CallCacheFull? && Fits(h, call.blockSize)
  {
    Batch(call.ids, Resolve(call.hashes, h, call.blockSize), call.cached, call.full, call.blockSize, call.group,
          call.mask)
  }

  // The step of a run that a call performs.
  function OpOf(h: nat, call: Call): Op
    requires Formed(h, call)
  {
    match call
    case CallGetNew(n, now) => OpGetNew(n, now)
    case CallTouch(ids) => OpTouch(ids)
    case CallFree(ids, now) => OpFree(ids, now)
    case CallCacheFull(_, _, cached, full, _, _, _) =>
      OpCacheFull(if cached < full then BatchOf(h, call).Items(full) else [])
    case CallCachePartial(hashes, b, numTokens, group, _) =>
      if b == NULL_BLOCK then OpLook else OpCachePartial(b, MakeKey(hashes[numTokens / h - 1], group), numTokens)
    case CallMove(src, dst) => OpMove(src, dst)
    case CallEvict(gone) => OpEvict(gone)
    case CallExpire(now) => OpExpire(now)
    case CallReset => OpReset
    case CallProtect(ids, until) => OpProtect(ids, until)
    case CallTakeEvents => OpLook
    case CallEmitCached(_, _, _, _) => OpLook
  }

  // The blocks a call names are blocks of the pool.
  predicate Named(s: State, call: Call) {
    match call
    case CallCacheFull(_, ids, _, _, _, _, _) => InRange(s, ids)
    case CallCachePartial(_, b, _, _, _) => b < |s.blocks|
    case CallEvict(gone) => forall b :: b in gone ==> b < |s.blocks|
    case CallProtect(ids, _) => InRange(s, ids)
    case _ => true
  }

  ghost predicate CallOk(h: nat, s: State, call: Call) {
    Formed(h, call) && Named(s, call) && Legal(s, OpOf(h, call))
  }

  // The announcements of a key that attach it to no further block: those of blocks that have
  // it already, and those of blocks reused from the cache. A reset forgets them.
  ghost function RepeatsAfter(on: bool, h: nat, s: State, call: Call, k: Key, before: nat): nat
    requires CallOk(h, s, call)
  {
    match call
    case CallCacheFull(_, _, _, _, _, _, _) => before + Repeated(s, OpOf(h, call).items)[k]
    case CallEmitCached(hashes, numCached, blockSize, group) =>
      before + if on then Announced(Resolve(hashes, h, blockSize)[..numCached], group, k) else 0
    case CallReset => if |s.blocks| - |s.free| == 1 then 0 else before
    case _ => before
  }

  // The same over the first m calls.
  ghost function RepeatsSoFar(on: bool, cfg: Config, h: nat, n: nat, calls: seq<Call>, trace: seq<State>, m: nat,
                              k: Key): nat
    requires n > 0 && Replayable(cfg, h, n, calls, trace) && m <= |calls|
  {
    if m == 0 then 0
    else
      assert Follows(cfg, h, trace[m - 1], calls[m - 1], trace[m]);
      RepeatsAfter(on, h, trace[m - 1], calls[m - 1], k, RepeatsSoFar(on, cfg, h, n, calls, trace, m - 1, k))
  }

  // A call that caches no key twice for the same block and announces nothing once more.
  ghost predicate AnnouncesOnce(h: nat, s: State, call: Call)
    requires CallOk(h, s, call)
  {
    !call.CallEmitCached? && (call.CallCacheFull? ==> OnceEach(s, OpOf(h, call).items))
  }

  // Such calls repeat nothing.
  lemma {:induction false} NoRepeats(on: bool, cfg: Config, h: nat, n: nat, calls: seq<Call>, trace: seq<State>,
                                          m: nat, k: Key)
    requires n > 0 && cfg.Ok() && Replayable(cfg, h, n, calls, trace) && m <= |calls|
    requires forall i :: 0 <= i < m ==> CallOk(h, trace[i], calls[i]) && AnnouncesOnce(h, trace[i], calls[i])
    ensures RepeatsSoFar(on, cfg, h, n, calls, trace, m, k) == 0
  {
    if m > 0 {
      NoRepeats(on, cfg, h, n, calls, trace, m - 1, k);
      ReplayIsRun(cfg, h, n, calls, trace, m - 1);
      assert Follows(cfg, h, trace[m - 1], calls[m - 1], trace[m]);
      if calls[m - 1].CallCacheFull? {
        NothingRepeated(trace[m - 1], OpOf(h, calls[m - 1]).items);
      }
    }
  }

  // The calls, and the states between them; keys go to held blocks.
  ghost predicate Replayable(cfg: Config, h: nat, n: nat, calls: seq<Call>, trace: seq<State>)
    requires n > 0
  {
    && |trace| == |calls| + 1 && trace[0] == Init(n)
    && forall i :: 0 <= i < |calls| ==> Follows(cfg, h, trace[i], calls[i], trace[i + 1])
  }

  ghost predicate Follows(cfg: Config, h: nat, s: State, call: Call, t: State) {
    && CallOk(h, s, call) && OnHeldBlocks(s, OpOf(h, call))
    && t == Step(cfg, s, OpOf(h, call))
  }

  // So the states form a run, in which the invariants hold throughout.
  lemma ReplayIsRun(cfg: Config, h: nat, n: nat, calls: seq<Call>, trace: seq<State>, m: nat)
    requires n > 0 && cfg.Ok() && Replayable(cfg, h, n, calls, trace) && m <= |calls|
    ensures Inv(trace[m]) && TimingOk(cfg, trace[m]) && |trace[m].blocks| == n
  {
    var ops := seq(m, i requires 0 <= i < m => if Formed(h, calls[i]) then OpOf(h, calls[i]) else OpLook);
    var front := trace[..m + 1];
    forall i | 0 <= i < m
      ensures Legal(front[i], ops[i]) && front[i + 1] == Step(cfg, front[i], ops[i]) && OnHeldBlocks(front[i], ops[i])
    {
      assert Follows(cfg, h, trace[i], calls[i], trace[i + 1]);
    }
    EveryRunKeepsInv(cfg, n, ops, front);
    EveryRunKeepsTiming(cfg, n, ops, front);
  }

  method Listed(pool: BlockPool, ids: seq<nat>) returns (list: seq<KVCacheBlock>)
    requires Below(ids, |pool.blocks|)
    ensures list == Pick(pool.blocks, ids)
  {
    list := seq(|ids|, i requires 0 <= i < |ids| => pool.blocks[ids[i]]);
  }

  // The surplus booked by the pool is that of the calls.
  ghost predicate Booked(pool: BlockPool, surplus: multiset<Key>, on: bool, h: nat, s: State, call: Call)
    requires CallOk(h, s, call)
    reads pool
  {
    forall k :: pool.surplus[k] == RepeatsAfter(on, h, s, call, k, surplus[k])
  }

  // One call does what the step of the run does, and books what it repeats.
  method Perform(pool: BlockPool, call: Call)
    requires pool.Valid() && |pool.st.blocks| == |pool.blocks| && Inv(pool.st) && TimingOk(pool.cfg, pool.st)
    requires CallOk(pool.hashBlockSize, pool.st, call)
    modifies pool, pool.index, pool.queue, pool.queue.head, pool.queue.tail, pool.blocks
    ensures pool.Valid() && pool.st == Step(pool.cfg, old(pool.st), OpOf(pool.hashBlockSize, call))
    ensures pool.index == old(pool.index) || fresh(pool.index)
    ensures Booked(pool, old(pool.surplus), pool.eventsOn, pool.hashBlockSize, old(pool.st), call)
  {
    if OnQueue(call) {
      PerformOnQueue(pool, call);
    } else if call.CallCacheFull? {
      PerformCacheFull(pool, call);
    } else if call.CallReset? || call.CallTakeEvents? || call.CallEmitCached? {
      PerformOnEvents(pool, call);
    } else {
      PerformOnKeys(pool, call);
    }
  }

  predicate OnQueue(call: Call) {
    call.CallGetNew? || call.CallTouch? || call.CallFree? || call.CallExpire? || call.CallProtect?
  }

  method PerformOnQueue(pool: BlockPool, call: Call)
    requires pool.Valid() && |pool.st.blocks| == |pool.blocks| && TimingOk(pool.cfg, pool.st)
    requires OnQueue(call) && CallOk(pool.hashBlockSize, pool.st, call)
    modifies pool, pool.index, pool.queue, pool.queue.head, pool.queue.tail, pool.blocks
    ensures pool.Valid() && pool.st == Step(pool.cfg, old(pool.st), OpOf(pool.hashBlockSize, call))
    ensures pool.index == old(pool.index) && pool.surplus == old(pool.surplus)
  {
    match call
    case CallGetNew(n, now) =>
      var _ := pool.GetNewBlocks(n, now);
    case CallTouch(ids) =>
      var list := Listed(pool, ids);
      pool.Touch(list, ids);
    case CallFree(ids, now) =>
      var list := Listed(pool, ids);
      pool.FreeBlocks(list, ids, now);
    case CallExpire(now) =>
      if pool.cfg.timeout.Some? {
        ScanAssertionHolds(pool.cfg, pool.st);
      }
      var _ := pool.ExpireCachedBlocks(now);
    case CallProtect(ids, until) =>
      var list := Listed(pool, ids);
      pool.StampProtection(list, ids, until);
  }

  method PerformOnKeys(pool: BlockPool, call: Call)
    requires pool.Valid() && |pool.st.blocks| == |pool.blocks|
    requires call.CallCachePartial? || call.CallMove? || call.CallEvict?
    requires CallOk(pool.hashBlockSize, pool.st, call)
    modifies pool, pool.index, pool.blocks
    ensures pool.Valid() && pool.st == Step(pool.cfg, old(pool.st), OpOf(pool.hashBlockSize, call))
    ensures pool.index == old(pool.index) && pool.surplus == old(pool.surplus)
  {
    match call
    case CallCachePartial(hashes, b, numTokens, group, blockSize) =>
      var _ := pool.CachePartialBlock(hashes, pool.blocks[b], b, numTokens, group, blockSize);
    case CallMove(src, dst) =>
      pool.MoveBlockHashes(pool.blocks[src], pool.blocks[dst], src, dst);
    case CallEvict(gone) =>
      pool.EvictBlocks(gone);
  }

  method PerformOnEvents(pool: BlockPool, call: Call)
    requires pool.Valid() && |pool.st.blocks| == |pool.blocks|
    requires call.CallReset? || call.CallTakeEvents? || call.CallEmitCached?
    requires CallOk(pool.hashBlockSize, pool.st, call)
    modifies pool, pool.blocks
    ensures pool.Valid() && pool.st == Step(pool.cfg, old(pool.st), OpOf(pool.hashBlockSize, call))
    ensures pool.index == old(pool.index) || fresh(pool.index)
    ensures Booked(pool, old(pool.surplus), pool.eventsOn, pool.hashBlockSize, old(pool.st), call)
  {
    match call
    case CallReset =>
      var _ := pool.ResetPrefixCache();
    case CallTakeEvents =>
      var _ := pool.TakeEvents();
    case CallEmitCached(hashes, numCached, blockSize, group) =>
      pool.EmitCachedBlockEvents(hashes, numCached, blockSize, group, Resolve(hashes, pool.hashBlockSize, blockSize));
  }

  // What caching the blocks of a call needs and does.
  lemma CacheFullPlan(cfg: Config, h: nat, s: State, call: Call, c: Batch) returns (more: multiset<Key>)
    requires call.CallCacheFull? && CallOk(h, s, call) && c == BatchOf(h, call)
    ensures more == Repeated(s, OpOf(h, call).items)
    ensures call.cached >= call.full ==> Step(cfg, s, OpOf(h, call)) == s && more == multiset{}
    ensures call.cached < call.full ==>
              && c.Ok() && ItemsReady(s, c.Items(call.full)) && Repeated(s, c.Items(call.full)) == more
              && CacheItems(s, c.Items(call.full)) == Step(cfg, s, OpOf(h, call))
  {
    more := Repeated(s, OpOf(h, call).items);
  }

  method PerformCacheFull(pool: BlockPool, call: Call)
    requires pool.Valid() && |pool.st.blocks| == |pool.blocks| && call.CallCacheFull?
    requires CallOk(pool.hashBlockSize, pool.st, call)
    modifies pool, pool.index, pool.blocks
    ensures pool.Valid() && pool.st == Step(pool.cfg, old(pool.st), OpOf(pool.hashBlockSize, call))
    ensures pool.index == old(pool.index)
    ensures Booked(pool, old(pool.surplus), pool.eventsOn, pool.hashBlockSize, old(pool.st), call)
  {
    ghost var c, t := BatchOf(pool.hashBlockSize, call), Step(pool.cfg, pool.st, OpOf(pool.hashBlockSize, call));
    ghost var more := CacheFullPlan(pool.cfg, pool.hashBlockSize, pool.st, call, c);
    CacheBatch(pool, call, c, t, more);
  }

  method CacheBatch(pool: BlockPool, call: Call, ghost c: Batch, ghost t: State, ghost more: multiset<Key>)
    requires pool.Valid() && call.CallCacheFull? && Fits(pool.hashBlockSize, call.blockSize)
    requires Below(call.ids, |pool.blocks|) && c == BatchOf(pool.hashBlockSize, call)
    requires call.cached >= call.full ==> t == pool.st && more == multiset{}
    requires call.cached < call.full ==>
               && c.Ok() && ItemsReady(pool.st, c.Items(call.full)) && Repeated(pool.st, c.Items(call.full)) == more
               && CacheItems(pool.st, c.Items(call.full)) == t
    modifies pool, pool.index, pool.blocks
    ensures pool.Valid() && pool.st == t && pool.index == old(pool.index) && pool.surplus == old(pool.surplus) + more
  {
    var list := Listed(pool, call.ids);
    pool.CacheFullBlocks(call.hashes, list, call.cached, call.full, call.blockSize, call.group, call.mask, c);
  }

  // Announcements minus removals of every key equal the number of blocks cached under it, plus
  // the announcements that attached it to no further block.
  ghost predicate LogExact(pool: BlockPool, n: nat, calls: seq<Call>, trace: seq<State>)
    requires n > 0 && Replayable(pool.cfg, pool.hashBlockSize, n, calls, trace)
    reads pool, pool.blocks
  {
    pool.eventsOn ==>
      forall k :: Net(pool.drained + pool.eventQueue, k) ==
                  |HoldersOf(pool.st, k)|
                      + RepeatsSoFar(pool.eventsOn, pool.cfg, pool.hashBlockSize, n, calls, trace, |calls|, k)
  }

  // Any calls at all, made one after the other on a fresh pool.
  method Replay(pool: BlockPool, calls: seq<Call>, ghost trace: seq<State>)
    requires pool.Valid() && |pool.blocks| > 0 && pool.cfg.Ok() && pool.surplus == multiset{}
    requires Replayable(pool.cfg, pool.hashBlockSize, |pool.blocks|, calls, trace) && pool.st == trace[0]
    modifies pool, pool.index, pool.queue, pool.queue.head, pool.queue.tail, pool.blocks
    ensures pool.Valid() && pool.st == trace[|calls|] && Inv(pool.st) && TimingOk(pool.cfg, pool.st)
    ensures LogExact(pool, |pool.blocks|, calls, trace)
  {
    ghost var n, on := |pool.blocks|, pool.eventsOn;
    for i := 0 to |calls|
      invariant pool.Valid() && pool.st == trace[i]
      invariant forall k :: pool.surplus[k] == RepeatsSoFar(on, pool.cfg, pool.hashBlockSize, n, calls, trace, i, k)
      invariant pool.index == old(pool.index) || fresh(pool.index)
    {
      ReplayIsRun(pool.cfg, pool.hashBlockSize, n, calls, trace, i);
      assert Follows(pool.cfg, pool.hashBlockSize, trace[i], calls[i], trace[i + 1]);
      Perform(pool, calls[i]);
    }
    ReplayIsRun(pool.cfg, pool.hashBlockSize, n, calls, trace, |calls|);
    forall k | pool.eventsOn
      ensures Net(pool.drained + pool.eventQueue, k) ==
                |HoldersOf(pool.st, k)| + RepeatsSoFar(on, pool.cfg, pool.hashBlockSize, n, calls, trace, |calls|, k)
    {
      pool.EventAccounting(k);
    }
  }

  // A pool is made and used; when nothing is announced twice, the log is the cache.
  method Lifetime(n: nat, cfg: Config, h: nat, on: bool, calls: seq<Call>, ghost trace: seq<State>)
    returns (pool: BlockPool)
    requires n > 0 && cfg.Ok() && Replayable(cfg, h, n, calls, trace)
    ensures fresh(pool) && pool.Valid() && pool.cfg == cfg && pool.hashBlockSize == h && pool.eventsOn == on
    ensures pool.st == trace[|calls|] && Inv(pool.st) && TimingOk(cfg, pool.st) && LogExact(pool, n, calls, trace)
    ensures on && (forall i :: 0 <= i < |calls| ==>
              CallOk(h, trace[i], calls[i]) && AnnouncesOnce(h, trace[i], calls[i])) ==>
              forall k :: Net(pool.drained + pool.eventQueue, k) == |HoldersOf(pool.st, k)|
  {
    pool := new BlockPool(n, cfg, h, on);
    Replay(pool, calls, trace);
    if forall i :: 0 <= i < |calls| ==> CallOk(h, trace[i], calls[i]) && AnnouncesOnce(h, trace[i], calls[i]) {
      forall k
        ensures RepeatsSoFar(on, cfg, h, n, calls, trace, |calls|, k) == 0
      {
        NoRepeats(on, cfg, h, n, calls, trace, |calls|, k);
      }
    }
  }
}
