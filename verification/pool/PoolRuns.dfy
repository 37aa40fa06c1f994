// Whole runs of the pool: any sequence of calls the engine may make.
module PoolRuns {
  import opened Wrappers
  import opened Seqs
  import opened BlockKeys
  import opened PoolModel
  import opened PoolInvariants
  import opened PoolTiming

  datatype Op =
    | OpGetNew(n: nat, now: int)
    | OpTouch(ids: seq<nat>)
    | OpFree(ids: seq<nat>, now: int)
    | OpCacheFull(items: seq<Item>)
    | OpCachePartial(block: nat, key: Key, tokens: nat)
    | OpMove(src: nat, dst: nat)
    | OpEvict(gone: set<nat>)
    | OpExpire(now: int)
    | OpReset
    | OpProtect(ids: seq<nat>, until: int)
    // A call that changes no block, such as a lookup.
    | OpLook

  // What the source's assertions and documentation demand of a caller, and a monotone clock.
  ghost predicate Legal(s: State, op: Op) {
    match op
    case OpGetNew(n, now) => s.clock <= now
    case OpTouch(ids) => InRange(s, ids)
    case OpFree(ids, now) => InRange(s, ids) && NoOverFree(s, ids) && s.clock <= now
    case OpCacheFull(items) => ItemsReady(s, items) && forall i :: 0 <= i < |items| ==> items[i].block != NULL_BLOCK
    case OpCachePartial(b, _, _) => b < |s.blocks|
    case OpMove(src, dst) => src < |s.blocks| && 0 < dst < |s.blocks| && KeysOf(s, dst) == {}
    case OpEvict(gone) => true
    case OpExpire(now) => s.clock <= now
    case OpReset => true
    case OpProtect(ids, until) => true
    case OpLook => true
  }

  // Keys are only attached to blocks somebody holds.
  ghost predicate OnHeldBlocks(s: State, op: Op) {
    match op
    case OpCacheFull(items) => forall i :: 0 <= i < |items| ==> items[i].block !in s.free
    case OpCachePartial(b, _, _) => b !in s.free
    case OpMove(_, dst) => dst !in s.free
    case _ => true
  }

  ghost function Step(cfg: Config, s: State, op: Op): State
    requires Legal(s, op)
  {
    match op
    case OpGetNew(n, now) => GetNew(cfg, s, n, now)
    case OpTouch(ids) => Touch(s, ids)
    case OpFree(ids, now) => Free(cfg, s, ids, now)
    case OpCacheFull(items) => CacheItems(s, items)
    case OpCachePartial(b, key, tokens) => CachePartial(s, b, key, tokens)
    case OpMove(src, dst) => MoveHashes(s, src, dst)
    case OpEvict(gone) => RemoveAll(s, gone)
    case OpExpire(now) => Expire(cfg, s, now)
    case OpReset => ResetCache(s)
    case OpProtect(ids, until) => Protect(s, ids, until)
    case OpLook => s
  }

  lemma StepInv(cfg: Config, s: State, op: Op)
    requires Inv(s) && Legal(s, op)
    ensures Inv(Step(cfg, s, op))
    ensures |Step(cfg, s, op).blocks| == |s.blocks|
  {
    match op
    case OpGetNew(n, now) =>
      if n <= |s.free| {
        GetNewResult(cfg, s, n, now);
      } else {
        MetaChangeKeepsCoherent(s, s.(clock := now));
      }
    case OpTouch(ids) => TouchInv(s, ids);
    case OpFree(ids, now) => FreeInv(cfg, s, ids, now);
    case OpCacheFull(items) => CacheItemsInv(s, items);
    case OpCachePartial(b, key, tokens) => CachePartialInv(s, b, key, tokens);
    case OpMove(src, dst) => MoveHashesInv(s, src, dst);
    case OpEvict(gone) => RemoveAllInv(s, gone);
    case OpExpire(now) => ExpireInv(cfg, s, now);
    case OpReset => ResetInv(s);
    case OpProtect(ids, until) => ProtectInv(s, ids, until);
    case OpLook =>
  }

  lemma StepTiming(cfg: Config, s: State, op: Op)
    requires cfg.Ok() && Inv(s) && TimingOk(cfg, s) && Legal(s, op) && OnHeldBlocks(s, op)
    ensures TimingOk(cfg, Step(cfg, s, op))
  {
    match op
    case OpGetNew(n, now) => GetNewTiming(cfg, s, n, now);
    case OpTouch(ids) => TouchTiming(cfg, s, ids);
    case OpFree(ids, now) => FreeTiming(cfg, s, ids, now);
    case OpCacheFull(items) => CacheItemsTiming(cfg, s, items);
    case OpCachePartial(b, key, tokens) => CachePartialTiming(cfg, s, b, key, tokens);
    case OpMove(src, dst) => MoveHashesTiming(cfg, s, src, dst);
    case OpEvict(gone) => RemoveAllTiming(cfg, s, gone);
    case OpExpire(now) => ExpireTiming(cfg, s, now);
    case OpReset => ResetTiming(cfg, s);
    case OpProtect(ids, until) => ProtectTiming(cfg, s, ids, until);
    case OpLook =>
  }

  // trace[0] is a fresh pool and each state follows from the one before it.
  ghost predicate IsRun(cfg: Config, n: nat, ops: seq<Op>, trace: seq<State>)
    requires n > 0
  {
    && |trace| == |ops| + 1
    && trace[0] == Init(n)
    && forall i :: 0 <= i < |ops| ==> Legal(trace[i], ops[i]) && trace[i + 1] == Step(cfg, trace[i], ops[i])
  }

  // In every reachable state ownership is conserved and the index agrees with the blocks.
  lemma {:induction false} EveryRunKeepsInv(cfg: Config, n: nat, ops: seq<Op>, trace: seq<State>)
    requires n > 0 && IsRun(cfg, n, ops, trace)
    ensures Inv(trace[|ops|])
    ensures |trace[|ops|].blocks| == n
    ensures |trace[|ops|].free| + |Held(trace[|ops|])| + 1 == n
  {
    if ops == [] {
      InitInv(n);
    } else {
      var m := |ops| - 1;
      assert IsRun(cfg, n, ops[..m], trace[..m + 1]);
      EveryRunKeepsInv(cfg, n, ops[..m], trace[..m + 1]);
      StepInv(cfg, trace[m], ops[m]);
    }
    Conservation(trace[|ops|]);
  }

  // If moreover keys are attached to held blocks only, the expiry bound is never late and
  // the queue is in least-recently-used order, in every reachable state.
  lemma {:induction false} EveryRunKeepsTiming(cfg: Config, n: nat, ops: seq<Op>, trace: seq<State>)
    requires n > 0 && cfg.Ok() && IsRun(cfg, n, ops, trace)
    requires forall i :: 0 <= i < |ops| ==> OnHeldBlocks(trace[i], ops[i])
    ensures TimingOk(cfg, trace[|ops|])
  {
    if ops != [] {
      var m := |ops| - 1;
      assert IsRun(cfg, n, ops[..m], trace[..m + 1]);
      EveryRunKeepsTiming(cfg, n, ops[..m], trace[..m + 1]);
      EveryRunKeepsInv(cfg, n, ops[..m], trace[..m + 1]);
      StepTiming(cfg, trace[m], ops[m]);
    }
  }
}
