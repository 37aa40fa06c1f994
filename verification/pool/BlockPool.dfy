// The block pool over real blocks: fields and methods as in the program, each method proved
// to compute the function of PoolModel.dfy with the same name on the abstract state st.
module BlockPool {
  import opened Wrappers
  import opened Seqs
  import opened BlockKeys
  import opened PoolModel
  import opened PoolInvariants
  import opened PoolTiming
  import opened FreeQueue
  import opened BlockMap
  import opened Events
  import opened PoolSteps
  import opened CacheSteps
  import opened HashViews

  ghost predicate Below(ids: seq<nat>, n: nat) {
    forall i :: 0 <= i < |ids| ==> ids[i] < n
  }

  function Kept(m: BlockMeta, forget: bool): Option<int> {
    if forget then None else m.idleSince
  }

  function OneIf(condition: bool, b: nat): seq<nat> {
    if condition then [b] else []
  }

  // The blocks with the given ids.
  ghost function Pick(blocks: seq<KVCacheBlock>, ids: seq<nat>): seq<KVCacheBlock>
    requires Below(ids, |blocks|)
  {
    seq(|ids|, i requires 0 <= i < |ids| => blocks[ids[i]])
  }

  ghost predicate LookHeap(s: State) {
    true
  }

  ghost predicate LookOwed(removed: seq<Key>) {
    true
  }

  ghost predicate LookQueue(ids: seq<nat>) {
    true
  }

  class BlockPool {
    const cfg: Config
    const hashBlockSize: nat
    const eventsOn: bool
    const blocks: seq<KVCacheBlock>
    const queue: FreeKVCacheBlockQueue
    var index: BlockHashToBlockMap
    var secondary: map<nat, set<Key>>
    var nextExpiry: Option<int>
    var eventQueue: seq<Event>

    // The abstract state, every event ever emitted, and the announcements of a key that
    // attached it to no further block.
    ghost var st: State
    ghost var log: seq<Event>
    ghost var drained: seq<Event>
    ghost var surplus: multiset<Key>

    // Block i carries its id and the i-th metadata; only block 0 is the null block.
    ghost predicate Carries(i: int, metas: seq<BlockMeta>)
      reads blocks`refCnt, blocks`blockHash, blocks`blockHashNumTokens, blocks`cacheIdleSince, blocks`protectedUntil
      reads blocks`isNull
    {
      0 <= i < |blocks| && i < |metas| ==>
        blocks[i].blockId == i && blocks[i].Meta() == metas[i] && (blocks[i].isNull <==> i == NULL_BLOCK)
    }

    lemma IdsAreNumbers(metas: seq<BlockMeta>)
      requires MetaIs(metas)
      ensures Numbered(blocks)
    {
      forall i {:trigger blocks[i]} | 0 <= i < |blocks|
        ensures blocks[i].blockId == i
      {
        assert Carries(i, metas);
      }
    }

    ghost predicate MetaIs(metas: seq<BlockMeta>)
      reads blocks`refCnt, blocks`blockHash, blocks`blockHashNumTokens, blocks`cacheIdleSince, blocks`protectedUntil
      reads blocks`isNull
    {
      0 < |blocks| == |metas| && forall i :: Carries(i, metas)
    }

    // The queue holds the blocks with the given ids, in that order.
    ghost predicate QueueIs(ids: seq<nat>)
      reads queue, queue.ring`prev, queue.ring`next
    {
      && queue.Valid()
      && queue.head !in blocks && queue.tail !in blocks
      && Below(ids, |blocks|)
      && queue.Free() == Pick(blocks, ids)
    }

    // The queue is linked through its sentinels and blocks of the pool only.
    lemma RingWithin(ids: seq<nat>)
      requires QueueIs(ids)
      ensures forall k {:trigger queue.ring[k]} :: 0 <= k < |queue.ring| ==>
                queue.ring[k] == queue.head || queue.ring[k] == queue.tail || queue.ring[k] in blocks
    {
      forall k | 0 <= k < |queue.ring|
        ensures queue.ring[k] == queue.head || queue.ring[k] == queue.tail || queue.ring[k] in blocks
      {
        if 0 < k < |queue.ring| - 1 {
          assert queue.ring[k] == queue.Free()[k - 1] == blocks[ids[k - 1]];
        }
      }
    }

    ghost predicate IndexSync()
      reads this`st, this`index, this`secondary, this`nextExpiry, index
    {
      && index.Valid() && index.owners == blocks && index.View() == st.index
      && secondary == st.secondary && nextExpiry == st.nextExpiry
    }

    ghost predicate LongKeys()
      reads this`st
    {
      forall k :: k in st.index ==> |k| >= 4
    }

    // Everything but the queue.
    ghost predicate KeySync()
      reads this`st, this`index, this`secondary, this`nextExpiry, index
      reads blocks`refCnt, blocks`blockHash, blocks`blockHashNumTokens, blocks`cacheIdleSince, blocks`protectedUntil
      reads blocks`isNull
    {
      MetaIs(st.blocks) && IndexSync() && LongKeys()
    }

    // The two halves of the correspondence as sealed facts, like Sound: the methods that only
    // call others pass them on unopened.
    ghost predicate Keys()
      reads this`st, this`index, this`secondary, this`nextExpiry, index
      reads blocks`refCnt, blocks`blockHash, blocks`blockHashNumTokens, blocks`cacheIdleSince, blocks`protectedUntil
      reads blocks`isNull
    {
      |blocks| == |st.blocks| > 0 && forall t {:trigger LookHeap(t)} :: LookHeap(t) && t == st ==> KeySync()
    }

    ghost predicate Queue(ids: seq<nat>)
      reads queue, queue.ring`prev, queue.ring`next
    {
      queue.numFree == |ids| && forall t {:trigger LookQueue(t)} :: LookQueue(t) && t == ids ==> QueueIs(t)
    }

    lemma OpenKeySync()
      requires Keys()
      ensures KeySync()
    {
      assert LookHeap(st);
    }

    lemma LongKeysOf(b: nat)
      requires Keys() && SoundKeys(st) && b < |blocks|
      ensures forall k :: k in KeysOf(st, b) ==> |k| >= 4
    {
      OpenKeySync();
      KeysAreIndexed(st, b);
    }

    // What the sealed correspondence says of one block.
    lemma OpenBlock(b: nat)
      requires Keys() && b < |blocks|
      ensures Carries(b, st.blocks) && Numbered(blocks)
    {
      OpenKeySync();
      assert Carries(b, st.blocks);
      IdsAreNumbers(st.blocks);
    }

    lemma OpenQueue(ids: seq<nat>)
      requires Queue(ids)
      ensures QueueIs(ids)
    {
      assert LookQueue(ids);
    }

    ghost predicate Sync()
      reads this, blocks, queue, queue.ring`prev, queue.ring`next, index
    {
      Keys() && Queue(st.free)
    }

    // For every key, announcements minus removals equal the blocks cached under it, up to
    // removals still to be announced, insertions still to be announced and the surplus.
    ghost predicate Balance(removed: multiset<Key>, stored: multiset<Key>)
      reads this`st, this`log, this`surplus, this`drained, this`eventQueue
    {
      && log == drained + eventQueue
      && (!eventsOn ==> log == [])
      && (eventsOn ==> forall k :: Net(log, k) + stored[k] == |IndexOf(st, k)| + surplus[k] + removed[k])
    }

    // The invariant at the boundary of every call.
    ghost predicate Valid()
      reads this, blocks, queue, queue.ring`prev, queue.ring`next, index
    {
      Sync() && Sound(st) && Balance(multiset{}, multiset{})
    }

    // Over every event since the last clear, handed out or still queued, the announcements of
    // a key minus its removals equal the number of blocks cached under it, plus the repeats.
    lemma EventAccounting(k: Key)
      requires Valid() && eventsOn
      ensures Net(drained + eventQueue, k) == |HoldersOf(st, k)| + surplus[k]
    {
      Open(st);
      HoldersCount(st, k);
    }

    constructor (n: nat, cfg: Config, hashBlockSize: nat, eventsOn: bool)
      requires n > 0 && cfg.Ok()
      ensures Valid() && st == Init(n) && eventQueue == [] && drained == [] && surplus == multiset{} && |blocks| == n
      ensures |st.free| == n - 1 && forall i :: 0 <= i < n - 1 ==> st.free[i] == i + 1
      ensures this.cfg == cfg && this.hashBlockSize == hashBlockSize && this.eventsOn == eventsOn
      ensures fresh(index) && fresh(queue) && fresh(queue.head) && fresh(queue.tail) && fresh(blocks)
    {
      this.cfg, this.hashBlockSize, this.eventsOn := cfg, hashBlockSize, eventsOn;
      var all, q := MakeQueue(n);
      blocks, queue := all, q;
      index := new BlockHashToBlockMap(all);
      secondary, nextExpiry, eventQueue := map[], None, [];
      st, log, drained, surplus := Init(n), [], [], multiset{};
      InitSound(n);
    }

    // The blocks and their queue, from which the null block has been taken.
    static method MakeQueue(n: nat) returns (all: seq<KVCacheBlock>, q: FreeKVCacheBlockQueue)
      requires n > 0
      ensures |all| == n && q.Valid() && q.Free() == Pick(all, Init(n).free)
      ensures q.head !in all && q.tail !in all
      ensures fresh(all) && fresh(q) && fresh(q.head) && fresh(q.tail)
      ensures forall i {:trigger all[i]} :: 0 <= i < n ==>
                all[i].blockId == i && all[i].Meta() == FreshBlock && (all[i].isNull <==> i == 0)
    {
      all := MakeBlocks(n);
      q := new FreeKVCacheBlockQueue(all);
      forall i | 0 <= i < |q.ring|
        ensures fresh(q.ring[i])
      {
        assert q.ring[i] in q.ring;
      }
      TakeNull(all, q);
    }

    // The first block becomes the null block and is never free.
    static method TakeNull(all: seq<KVCacheBlock>, q: FreeKVCacheBlockQueue)
      requires |all| > 0 && q.Valid() && q.Free() == all && Distinct(all)
      modifies q`ring, q`numFree, q.ring`prev, q.ring`next, all`isNull
      ensures q.Valid() && q.Free() == Pick(all, Init(|all|).free)
      ensures all[0].isNull && forall i :: 0 < i < |all| ==> all[i].isNull == old(all[i].isNull)
    {
      assert q.Free() == Inner(q.ring) && q.Free()[0] == all[0];
      var nullBlock := q.PopLeft();
      nullBlock.isNull := true;
      assert q.Free() == Pick(all, Init(|all|).free);
    }

    static method MakeBlocks(n: nat) returns (all: seq<KVCacheBlock>)
      ensures |all| == n && fresh(all) && Distinct(all)
      ensures forall i {:trigger all[i]} :: 0 <= i < n ==>
                all[i].blockId == i && all[i].Meta() == FreshBlock && !all[i].isNull && all[i].prev == null
                    && all[i].next == null
    {
      all := [];
      for i := 0 to n
        invariant |all| == i && fresh(all)
        invariant forall j {:trigger all[j]} :: 0 <= j < i ==>
                    all[j].blockId == j && all[j].Meta() == FreshBlock && !all[j].isNull && all[j].prev == null
                        && all[j].next == null
      {
        var b := new KVCacheBlock(i);
        all := all + [b];
      }
      forall i, j | 0 <= i < j < n
        ensures all[i] != all[j]
      {
        assert all[i].blockId == i && all[j].blockId == j;
      }
    }

    // ---- Keys ----

    // Removes every key of the block from the index; returns the keys, the primary one first.
    method RemoveCachedBlockHashes(block: KVCacheBlock, ghost b: nat) returns (removed: seq<Key>)
      requires Keys() && SoundKeys(st) && b < |blocks| && block == blocks[b]
      modifies this`st, this`secondary, index, block`blockHash, block`blockHashNumTokens, block`cacheIdleSince
      modifies block`protectedUntil
      ensures Keys() && st == RemoveAll(old(st), {b})
      ensures Distinct(removed) && Elems(removed) == KeysOf(old(st), b)
      ensures old(block.blockHash).Some? ==> removed != [] && removed[0] == old(block.blockHash).value
    {
      OpenKeySync();
      ghost var s := st;
      assert Carries(b, s.blocks);
      SoundBlock(s, b);
      var hashes := CollectHashes(block, b);
      if |hashes| == 0 {
        assert KeysOf(s, b) == {};
        NothingToRemove(s, b);
        assert secondary == s.secondary;
        return [];
      }
      removed := StripKeys(block, b, hashes);
    }

    // Takes the given keys, all there are, out of the index and off the block.
    method StripKeys(block: KVCacheBlock, ghost b: nat, hashes: seq<Key>) returns (removed: seq<Key>)
      requires MetaIs(st.blocks) && SoundKeys(st) && LongKeys() && b < |blocks| && block == blocks[b]
      requires block.blockId == b
      requires index.Valid() && index.owners == blocks && index.View() == st.index
      requires secondary == st.secondary - {b} && nextExpiry == st.nextExpiry
      requires hashes != [] && Distinct(hashes) && Elems(hashes) == KeysOf(st, b)
      modifies this`st, index, block`blockHash, block`blockHashNumTokens, block`cacheIdleSince, block`protectedUntil
      ensures Keys() && st == RemoveAll(old(st), {b}) && removed == hashes
    {
      RemoveOne(st, b, hashes);
      ghost var left, others := PopList(st.index, b, hashes), st.secondary - {b};
      removed := PopHashes(block, b, hashes);
      Reindex(left, others);
      ResetMeta(block, b);
    }

    // Records in the abstract state what happened to the index.
    ghost method Reindex(left: map<Key, seq<nat>>, others: map<nat, set<Key>>)
      requires MetaIs(st.blocks) && LongKeys() && index.Valid() && index.owners == blocks && index.View() == left
      requires secondary == others && nextExpiry == st.nextExpiry && forall k :: k in left ==> k in st.index
      modifies this`st
      ensures Keys() && st == old(st).(index := left, secondary := others)
    {
      st := st.(index := left, secondary := others);
    }

    method CollectHashes(block: KVCacheBlock, ghost b: nat) returns (hashes: seq<Key>)
      requires b < |st.blocks| && block.blockId == b && block.Meta() == st.blocks[b] && BlockOk(st, b)
      requires secondary == st.secondary
      modifies this`secondary
      ensures Distinct(hashes) && Elems(hashes) == KeysOf(st, b)
      ensures block.blockHash.Some? ==> hashes != [] && hashes[0] == block.blockHash.value
      ensures secondary == st.secondary - {b}
    {
      hashes := [];
      if block.blockHash.Some? {
        hashes := [block.blockHash.value];
      }
      if block.blockId in secondary {
        hashes := AppendSet(hashes, secondary[block.blockId]);
        secondary := secondary - {block.blockId};
      }
    }

    method PopHashes(block: KVCacheBlock, ghost b: nat, hashes: seq<Key>) returns (removed: seq<Key>)
      requires SoundKeys(st) && b < |st.blocks| && block.blockId == b
      requires index.Valid() && index.View() == st.index
      requires Distinct(hashes) && Elems(hashes) == KeysOf(st, b)
      modifies index
      ensures index.Valid() && index.View() == PopList(st.index, b, hashes) && removed == hashes
    {
      removed := [];
      for i := 0 to |hashes|
        invariant index.Valid() && index.View() == PopList(st.index, b, hashes[..i])
        invariant removed == hashes[..i]
      {
        StillIndexed(st, b, hashes, i);
        PopListSnoc(st.index, b, hashes, i);
        var r := index.Pop(hashes[i], block.blockId);
        if r != null {
          removed := removed + [hashes[i]];
        }
      }
      assert hashes[..|hashes|] == hashes;
    }

    // The keys of a set, in an arbitrary order, after the given ones.
    static method AppendSet(front: seq<Key>, keys: set<Key>) returns (all: seq<Key>)
      requires Distinct(front) && forall k :: k in front ==> k !in keys
      ensures Distinct(all) && Elems(all) == Elems(front) + keys && front <= all
    {
      all := front;
      var rest := keys;
      while rest != {}
        invariant Distinct(all) && rest <= keys && front <= all
        invariant forall k :: k in all <==> k in front || k in keys - rest
        decreases rest
      {
        var k :| k in rest;
        all := all + [k];
        rest := rest - {k};
      }
    }

    method EmitRemoved(keys: seq<Key>, ghost more: multiset<Key>, ghost stored: multiset<Key>)
      requires Balance(multiset(keys) + more, stored) && forall k :: k in keys ==> |k| >= 4
      modifies this`eventQueue, this`log
      ensures Balance(more, stored) && drained == old(drained)
    {
      if !eventsOn {
        return;
      }
      for i := 0 to |keys|
        invariant Balance(multiset(keys[i..]) + more, stored) && drained == old(drained)
      {
        assert keys[i..] == [keys[i]] + keys[i + 1..];
        assert multiset(keys[i..]) + more == multiset{keys[i]} + (multiset(keys[i + 1..]) + more);
        EmitOne(keys[i], multiset(keys[i + 1..]) + more, stored);
      }
    }

    method EmitOne(key: Key, ghost more: multiset<Key>, ghost stored: multiset<Key>)
      requires eventsOn && Balance(multiset{key} + more, stored) && |key| >= 4
      modifies this`eventQueue, this`log
      ensures Balance(more, stored)
    {
      forall k
        ensures Net(log + [RemovedEvent(key)], k) == Net(log, k) - if k == key then 1 else 0
      {
        NetRemoved(log, key, k);
      }
      eventQueue := eventQueue + [BlockRemoved(GetBlockHash(key), GetGroupId(key))];
      log := log + [RemovedEvent(key)];
    }

    method InsertBlockHash(key: Key, block: KVCacheBlock, ghost b: nat, tokens: Option<nat>)
      requires Keys() && SoundKeys(st) && b < |blocks| && block == blocks[b] && |key| >= 4
      requires tokens.Some? || block.blockHash.Some?
      modifies this`st, this`secondary, index, block`blockHash, block`blockHashNumTokens
      ensures Keys() && st == InsertHash(old(st), b, key, if tokens.Some? then tokens.value else 0)
    {
      OpenKeySync();
      assert Carries(b, st.blocks);
      SoundBlock(st, b);
      if block.blockHash == Some(key) {
        return;
      }
      var there := index.Contain(key, block.blockId);
      if !there {
        Attach(key, block, b, tokens);
      }
    }

    method Attach(key: Key, block: KVCacheBlock, ghost b: nat, tokens: Option<nat>)
      requires Keys() && b < |blocks| && block == blocks[b] && |key| >= 4
      requires block.blockHash.Some? ==> block.blockHash != Some(key)
      requires block.blockHash.None? ==> tokens.Some? && block.blockHashNumTokens.None?
      requires b !in IndexOf(st, key)
      modifies this`st, this`secondary, index, block`blockHash, block`blockHashNumTokens
      ensures Keys() && st == InsertHash(old(st), b, key, if tokens.Some? then tokens.value else 0)
    {
      OpenBlock(b);
      if block.blockHash.None? {
        SetPrimary(block, b, key, tokens);
      } else {
        AddSecondary(block, b, key);
      }
      IndexKey(key, block, b);
    }

    // The block's first key.
    method SetPrimary(block: KVCacheBlock, ghost b: nat, key: Key, tokens: Option<nat>)
      requires Keys() && b < |blocks| && block == blocks[b]
      requires block.blockHash.None? && tokens.Some? && block.blockHashNumTokens.None?
      modifies this`st, block`blockHash, block`blockHashNumTokens
      ensures Keys()
      ensures st == old(st).(blocks := old(st).blocks[b := old(st).blocks[b].(hash := Some(key), numTokens := tokens)])
    {
      OpenKeySync();
      assert Carries(b, st.blocks);
      block.SetBlockHash(key, tokens);
      st := st.(blocks := st.blocks[b := st.blocks[b].(hash := Some(key), numTokens := tokens)]);
      forall i
        ensures Carries(i, st.blocks)
      {
        assert old(Carries(i, st.blocks));
      }
    }

    // A further key of the block.
    method AddSecondary(block: KVCacheBlock, ghost b: nat, key: Key)
      requires Keys() && b < |blocks| && block == blocks[b] && block.blockId == b
      modifies this`st, this`secondary
      ensures Keys()
      ensures var more := (if b in old(st).secondary then old(st).secondary[b] else {}) + {key};
        st == old(st).(secondary := old(st).secondary[b := more])
    {
      OpenKeySync();
      var more := (if block.blockId in secondary then secondary[block.blockId] else {}) + {key};
      secondary := secondary[block.blockId := more];
      st := st.(secondary := secondary);
    }

    // The block goes last under its key.
    method IndexKey(key: Key, block: KVCacheBlock, ghost b: nat)
      requires Keys() && b < |blocks| && block == blocks[b] && block.blockId == b
      requires |key| >= 4 && b !in IndexOf(st, key)
      modifies this`st, index
      ensures Keys() && st == old(st).(index := Added(old(st).index, key, b))
    {
      OpenKeySync();
      IdsAreNumbers(st.blocks);
      index.Insert(key, block);
      st := st.(index := Added(st.index, key, b));
    }

    // ---- Allocation ----

    // Removes the block's keys, whose announcement is then owed.
    method TakeKeys(block: KVCacheBlock, ghost b: nat, ghost more: multiset<Key>, ghost stored: multiset<Key>)
      returns (removed: seq<Key>)
      requires Keys() && SoundKeys(st) && Balance(more, stored) && b < |blocks| && block == blocks[b]
      modifies this`st, this`secondary, index, block`blockHash, block`blockHashNumTokens, block`cacheIdleSince
      modifies block`protectedUntil
      ensures Keys() && st == RemoveAll(old(st), {b}) && Balance(multiset(removed) + more, stored)
      ensures Distinct(removed) && Elems(removed) == KeysOf(old(st), b) && forall k :: k in removed ==> |k| >= 4
      ensures old(block.blockHash).Some? ==> removed != [] && removed[0] == old(block.blockHash).value
    {
      ghost var s := st;
      LongKeysOf(b);
      removed := RemoveCachedBlockHashes(block, b);
      forall k
        ensures |IndexOf(st, k)| + multiset(removed)[k] == |IndexOf(s, k)|
      {
        RemovalCount(s, b, removed, k);
      }
      assert forall k :: k in removed ==> k in Elems(removed);
    }

    // Removes the block's keys and announces it; true when there were any.
    method MaybeEvictCachedBlock(block: KVCacheBlock, ghost b: nat) returns (evicted: bool)
      requires Keys() && SoundKeys(st) && Balance(multiset{}, multiset{}) && b < |blocks| && block == blocks[b]
      modifies this`st, this`secondary, index, this`eventQueue, this`log
      modifies block`blockHash, block`blockHashNumTokens, block`cacheIdleSince, block`protectedUntil
      ensures Keys() && st == RemoveAll(old(st), {b}) && Balance(multiset{}, multiset{})
      ensures evicted == (KeysOf(old(st), b) != {})
    {
      var removed := TakeKeys(block, b, multiset{}, multiset{});
      if |removed| == 0 {
        assert Elems(removed) == {};
        return false;
      }
      assert removed[0] in Elems(removed);
      EmitRemoved(removed, multiset{}, multiset{});
      return true;
    }

    // popleft_n_where in terms of ids; chosen are the ids that meet the condition.
    method PopIds(n: nat, condition: BlockMeta -> bool, ghost ids: seq<nat>, ghost chosen: set<nat>,
                  ghost taken: seq<nat>, ghost left: seq<nat>)
      returns (ret: seq<KVCacheBlock>)
      requires Queue(ids) && Numbered(blocks)
      requires forall i :: i in ids ==> i < |blocks| && (condition(blocks[i].Meta()) <==> i in chosen)
      requires taken == First(Keep(ids, chosen), n) && left == Drop(ids, Elems(taken))
      modifies queue`ring, queue`numFree, blocks`prev, blocks`next
      modifies queue.head`prev, queue.head`next, queue.tail`prev, queue.tail`next
      ensures Below(taken, |blocks|) && ret == Pick(blocks, taken) && Queue(left)
    {
      OpenQueue(ids);
      ghost var f, hits := queue.Free(), queue.Matching(condition);
      assert f == Pick(blocks, ids);
      PickMembers(blocks, ids);
      PickSelect(blocks, ids, hits, chosen);
      RingWithin(ids);
      ret := queue.PopLeftNWhere(n, condition);
      assert ret == Pick(blocks, taken);
      PickMembers(blocks, taken);
      PickSelect(blocks, ids, Elems(ret), Elems(taken));
    }

    // The victims: first n of the stable partition of the queue.
    method SelectVictims(n: nat, now: int) returns (ret: seq<KVCacheBlock>, ghost v: seq<nat>)
      requires Keys() && Queue(st.free) && Sound(st) && n <= |st.free|
      modifies queue`ring, queue`numFree, blocks`prev, blocks`next
      modifies queue.head`prev, queue.head`next, queue.tail`prev, queue.tail`next
      ensures v == Victims(st, n, now)
      ensures Queue(Drop(st.free, Elems(v)))
      ensures Below(v, |blocks|) && ret == Pick(blocks, v)
    {
      OpenBlock(0);
      ghost var u, first, rest, more, left := VictimRounds(st, n, now);
      ret := PopUnprotected(n, now, u, first, rest);
      if |ret| < n {
        var last := PopRest(n - |ret|, rest, more, left);
        ret := ret + last;
      }
      v := first + more;
      PickConcat(blocks, first, more);
    }

    method PopUnprotected(n: nat, now: int, ghost u: seq<nat>, ghost taken: seq<nat>, ghost left: seq<nat>)
      returns (ret: seq<KVCacheBlock>)
      requires Keys() && Queue(st.free)
      requires forall b :: b in Elems(u) <==> b in st.free && b !in ProtectedFree(st, now)
      requires taken == First(Keep(st.free, Elems(u)), n) && left == Drop(st.free, Elems(taken))
      modifies queue`ring, queue`numFree, blocks`prev, blocks`next
      modifies queue.head`prev, queue.head`next, queue.tail`prev, queue.tail`next
      ensures Below(taken, |blocks|) && ret == Pick(blocks, taken) && Queue(left)
    {
      OpenBlock(0);
      OpenQueue(st.free);
      var condition := (m: BlockMeta) => m.protectedUntil <= now;
      forall i | i in st.free
        ensures i < |blocks| && (condition(blocks[i].Meta()) <==> i in Elems(u))
      {
        OpenBlock(i);
      }
      ret := PopIds(n, condition, st.free, Elems(u), taken, left);
    }

    // The second round: what is left of the queue, from its head.
    method PopRest(n: nat, ghost ids: seq<nat>, ghost taken: seq<nat>, ghost left: seq<nat>)
      returns (ret: seq<KVCacheBlock>)
      requires Queue(ids) && Numbered(blocks)
      requires taken == First(Keep(ids, Elems(ids)), n) && left == Drop(ids, Elems(taken))
      modifies queue`ring, queue`numFree, blocks`prev, blocks`next
      modifies queue.head`prev, queue.head`next, queue.tail`prev, queue.tail`next
      ensures Below(taken, |blocks|) && ret == Pick(blocks, taken) && Queue(left)
    {
      OpenQueue(ids);
      ret := PopIds(n, _ => true, ids, Elems(ids), taken, left);
    }

    method ClearProtections(list: seq<KVCacheBlock>, ghost v: seq<nat>)
      requires Keys() && Below(v, |blocks|) && list == Pick(blocks, v)
      modifies this`st, blocks`protectedUntil
      ensures Keys() && st == ClearProtection(old(st), Elems(v))
    {
      ghost var s := st;
      ClearNone(s);
      for i := 0 to |list|
        invariant Keys() && st == ClearProtection(s, Elems(v[..i]))
      {
        ElemsUpTo(v, i);
        ClearOneMore(s, Elems(v[..i]), v[i]);
        SetProtection(list[i], v[i], 0);
      }
      assert v[..|v|] == v;
    }

    method SetProtection(block: KVCacheBlock, ghost b: nat, until: int)
      requires Keys() && b < |blocks| && block == blocks[b]
      modifies this`st, block`protectedUntil
      ensures Keys() && st == old(st).(blocks := old(st).blocks[b := old(st).blocks[b].(protectedUntil := until)])
    {
      OpenKeySync();
      assert Carries(b, st.blocks);
      block.protectedUntil := until;
      st := st.(blocks := st.blocks[b := st.blocks[b].(protectedUntil := until)]);
      forall i
        ensures Carries(i, st.blocks)
      {
        assert old(Carries(i, st.blocks));
      }
    }

    // Adds to the count of holders, and optionally forgets the idle time.
    method ChangeCount(block: KVCacheBlock, ghost b: nat, delta: int, forget: bool)
      requires Keys() && b < |blocks| && block == blocks[b]
      modifies this`st, block`refCnt, block`cacheIdleSince
      ensures Keys()
      ensures var m := old(st).blocks[b];
        st == old(st).(blocks := old(st).blocks[b := m.(refCnt := m.refCnt + delta, idleSince := Kept(m, forget))])
    {
      OpenKeySync();
      assert Carries(b, st.blocks);
      if forget {
        block.cacheIdleSince := None;
      }
      block.refCnt := block.refCnt + delta;
      ghost var m := st.blocks[b];
      st := st.(blocks := st.blocks[b := m.(refCnt := m.refCnt + delta, idleSince := Kept(m, forget))]);
      forall i
        ensures Carries(i, st.blocks)
      {
        assert old(Carries(i, st.blocks));
      }
    }

    // Evicts each block with caching on, and gives it its one holder.
    method PrepareAll(list: seq<KVCacheBlock>, ghost v: seq<nat>)
      requires Keys() && SoundKeys(st) && Balance(multiset{}, multiset{})
      requires Below(v, |blocks|) && Distinct(v) && list == Pick(blocks, v)
      requires forall b :: b in v ==> st.blocks[b].refCnt == 0
      modifies this`st, this`secondary, index, this`eventQueue, this`log
      modifies blocks`blockHash, blocks`blockHashNumTokens, blocks`cacheIdleSince, blocks`protectedUntil, blocks`refCnt
      ensures Keys() && st == Prepared(cfg, old(st), Elems(v)) && Balance(multiset{}, multiset{})
    {
      ghost var s := st;
      PreparedNone(cfg, s);
      ghost var done: set<nat> := {};
      for i := 0 to |list|
        invariant done == Elems(v[..i])
        invariant Keys() && st == Prepared(cfg, s, done) && Balance(multiset{}, multiset{})
      {
        ElemsUpTo(v, i);
        PrepareNext(list[i], v[i], s, done);
        done := done + {v[i]};
      }
      assert v[..|v|] == v;
    }

    method PrepareNext(block: KVCacheBlock, ghost b: nat, ghost s: State, ghost done: set<nat>)
      requires Keys() && SoundKeys(s) && st == Prepared(cfg, s, done) && Balance(multiset{}, multiset{})
      requires b < |blocks| && block == blocks[b] && b !in done && b < |s.blocks| && s.blocks[b].refCnt == 0
      modifies this`st, this`secondary, index, this`eventQueue, this`log
      modifies block`blockHash, block`blockHashNumTokens, block`cacheIdleSince, block`protectedUntil, block`refCnt
      ensures Keys() && st == Prepared(cfg, s, done + {b}) && Balance(multiset{}, multiset{})
    {
      PreparedCoherent(cfg, s, done);
      PreparedOneMore(cfg, s, done, b);
      PreparedCount(cfg, s, done, b);
      Prepare(block, b);
    }

    method Prepare(block: KVCacheBlock, ghost b: nat)
      requires Keys() && SoundKeys(st) && Balance(multiset{}, multiset{}) && b < |blocks| && block == blocks[b]
      requires st.blocks[b].refCnt == 0
      modifies this`st, this`secondary, index, this`eventQueue, this`log
      modifies block`blockHash, block`blockHashNumTokens, block`cacheIdleSince, block`protectedUntil, block`refCnt
      ensures Keys() && Balance(multiset{}, multiset{})
      ensures var u := if cfg.caching then RemoveAll(old(st), {b}) else old(st);
        && b < |u.blocks|
        && st == u.(blocks := u.blocks[b := u.blocks[b].(refCnt := u.blocks[b].refCnt + 1)])
    {
      if cfg.caching {
        var _ := MaybeEvictCachedBlock(block, b);
      }
      OpenBlock(b);
      // The program asserts here that nobody holds the block.
      assert block.refCnt == 0;
      ChangeCount(block, b, 1, false);
    }

    // Unlinks the victims and clears their protection.
    method TakeVictims(n: nat, now: int) returns (list: seq<KVCacheBlock>, ghost v: seq<nat>)
      requires Sync() && Sound(st) && Balance(multiset{}, multiset{}) && n <= |st.free|
      modifies this`st, queue`ring, queue`numFree, blocks`prev, blocks`next, blocks`protectedUntil
      modifies queue.head`prev, queue.head`next, queue.tail`prev, queue.tail`next
      ensures v == Victims(old(st), n, now) && Below(v, |blocks|) && list == Pick(blocks, v)
      ensures st == ClearProtection(old(st).(free := Drop(old(st).free, Elems(v)), clock := now), Elems(v))
      ensures Keys() && Queue(Drop(old(st).free, Elems(v))) && Balance(multiset{}, multiset{})
    {
      list, v := SelectVictims(n, now);
      SetQueue(Drop(st.free, Elems(v)), now);
      ClearProtections(list, v);
      assert forall k :: IndexOf(st, k) == IndexOf(old(st), k);
    }

    // Records in the abstract state what happened to the queue and the clock.
    ghost method SetQueue(ids: seq<nat>, now: int)
      requires Keys()
      modifies this`st
      ensures Keys() && st == old(st).(free := ids, clock := now)
    {
      OpenKeySync();
      st := st.(free := ids, clock := now);
    }

    // A call that does nothing else.
    ghost method PassTime(now: int)
      requires Valid() && st.clock <= now
      modifies this`st
      ensures Valid() && st == old(st).(clock := now)
    {
      SetQueue(st.free, now);
      ClockKeepsSound(old(st), now);
      assert forall k :: IndexOf(st, k) == IndexOf(old(st), k);
    }

    // ValueError when fewer blocks are free than asked for.
    method GetNewBlocks(n: nat, now: int) returns (ret: Option<seq<KVCacheBlock>>)
      requires Valid() && st.clock <= now
      modifies this, index, queue, queue.head, queue.tail, blocks
      ensures Valid() && st == GetNew(cfg, old(st), n, now)
      ensures ret.None? <==> n > |old(st.free)|
      ensures ret.None? ==> st == old(st).(clock := now)
      ensures ret.Some? ==>
                Below(Victims(old(st), n, now), |blocks|) && ret.value == Pick(blocks, Victims(old(st), n, now))
      ensures index == old(index) && surplus == old(surplus) && drained == old(drained)
    {
      if n > queue.numFree {
        PassTime(now);
        return None;
      }
      var list := TakeNew(n, now);
      return Some(list);
    }

    method TakeNew(n: nat, now: int) returns (list: seq<KVCacheBlock>)
      requires Valid() && n <= |st.free|
      modifies this`st, this`secondary, index, this`eventQueue, this`log, queue`ring, queue`numFree, queue.head
      modifies queue.tail, blocks
      ensures Valid() && st == GetNew(cfg, old(st), n, now)
      ensures Below(Victims(old(st), n, now), |blocks|) && list == Pick(blocks, Victims(old(st), n, now))
    {
      SelectedIsReady(cfg, st, n, now, Victims(st, n, now));
      ghost var v;
      list, v := TakeVictims(n, now);
      PrepareAll(list, v);
    }

    // ---- Touch and free ----

    // Takes one block out of the queue.
    method Unqueue(block: KVCacheBlock, ghost b: nat, ghost ids: seq<nat>)
      requires Keys() && Queue(ids) && b < |blocks| && block == blocks[b] && b in ids
      modifies queue`ring, queue`numFree, blocks`prev, blocks`next
      modifies queue.head`prev, queue.head`next, queue.tail`prev, queue.tail`next
      ensures Queue(Drop(ids, {b}))
    {
      OpenBlock(b);
      OpenQueue(ids);
      PickMembers(blocks, ids);
      assert forall i :: i in ids ==> (blocks[i] in {block} <==> i in {b});
      PickSelect(blocks, ids, {block}, {b});
      RingWithin(ids);
      var ok := queue.Remove(block);
    }

    method TouchOne(block: KVCacheBlock, ghost b: nat)
      requires Keys() && Queue(st.free) && b < |blocks| && block == blocks[b]
      requires st.blocks[b].refCnt == 0 && b != NULL_BLOCK ==> b in st.free
      modifies this`st, block`refCnt, block`cacheIdleSince, queue`ring, queue`numFree, blocks`prev, blocks`next
      modifies queue.head`prev, queue.head`next, queue.tail`prev, queue.tail`next
      ensures Keys() && Queue(st.free)
      ensures st == TouchedOnce(old(st), b)
    {
      OpenBlock(b);
      ghost var s := st;
      if block.refCnt == 0 && !block.isNull {
        Unqueue(block, b, st.free);
        SetQueue(Drop(s.free, {b}), s.clock);
        ChangeCount(block, b, 1, true);
      } else {
        ChangeCount(block, b, 1, false);
      }
    }

    method TouchAll(list: seq<KVCacheBlock>, ghost ids: seq<nat>)
      requires Keys() && Queue(st.free) && Sound(st) && Below(ids, |blocks|) && list == Pick(blocks, ids)
      modifies this`st, blocks`refCnt, blocks`cacheIdleSince, queue`ring, queue`numFree, blocks`prev, blocks`next
      modifies queue.head`prev, queue.head`next, queue.tail`prev, queue.tail`next
      ensures Keys() && Queue(st.free) && st == PoolModel.Touch(old(st), ids)
    {
      ghost var s := st;
      ghost var done: seq<nat> := [];
      TouchNone(s);
      for i := 0 to |list|
        invariant done == ids[..i] && Keys() && Queue(st.free) && st == PoolModel.Touch(s, done)
      {
        done := TouchNext(list[i], ids[i], s, done);
      }
      assert ids[..|ids|] == ids;
    }

    method TouchNext(block: KVCacheBlock, ghost b: nat, ghost s: State, ghost done: seq<nat>)
      returns (ghost more: seq<nat>)
      requires Keys() && Queue(st.free) && Sound(s) && b < |blocks| && block == blocks[b] && |s.blocks| == |blocks|
      requires Below(done, |blocks|) && st == PoolModel.Touch(s, done)
      modifies this`st, blocks`refCnt, blocks`cacheIdleSince, queue`ring, queue`numFree, blocks`prev, blocks`next
      modifies queue.head`prev, queue.head`next, queue.tail`prev, queue.tail`next
      ensures Keys() && Queue(st.free) && more == done + [b] && st == PoolModel.Touch(s, more)
    {
      ghost var t := TouchOneMore(s, done, b);
      TouchOne(block, b);
      more := done + [b];
    }

    // One more holder for each block; a free block leaves the queue.
    method Touch(list: seq<KVCacheBlock>, ghost ids: seq<nat>)
      requires Valid() && Below(ids, |blocks|) && list == Pick(blocks, ids)
      modifies this, index, queue, queue.head, queue.tail, blocks
      ensures Valid() && st == PoolModel.Touch(old(st), ids)
      ensures index == old(index) && surplus == old(surplus) && drained == old(drained)
    {
      TouchSound(st, ids);
      TouchAll(list, ids);
    }

    // Takes one more count down: whether the block is released by it, and without a hash.
    method ReleaseOne(block: KVCacheBlock, ghost b: nat, ghost s: State, ghost ids: seq<nat>, ghost warmth: set<nat>,
                      ghost warm: seq<nat>, ghost cold: seq<nat>)
      returns (released: bool, isCold: bool)
      requires Keys() && b < |blocks| && block == blocks[b]
      requires |s.blocks| == |blocks| && InRange(s, ids) && st == Lowered(s, ids) && warmth == KeptWarm(cfg, s)
      requires Sorted(s, ids, warmth, warm, cold)
      modifies this`st, block`refCnt, block`cacheIdleSince
      ensures Keys() && InRange(s, ids + [b]) && st == Lowered(s, ids + [b])
      ensures Sorted(s, ids + [b], warmth, warm + OneIf(released && !isCold, b), cold + OneIf(released && isCold, b))
    {
      OpenBlock(b);
      ghost var hit := SortReleased(s, warmth, ids, b);
      ChangeCount(block, b, -1, false);
      OpenBlock(b);
      released := block.refCnt == 0 && !block.isNull;
      isCold := block.blockHash.None? && cfg.caching;
    }

    lemma PickMaybe(condition: bool, ids: seq<nat>, b: nat)
      requires b < |blocks| && Below(ids, |blocks|)
      ensures var more := ids + OneIf(condition, b);
        Below(more, |blocks|) && Pick(blocks, more) == Pick(blocks, ids) + if condition then [blocks[b]] else []
    {
      if condition {
        PickSnoc(blocks, ids, b);
      } else {
        assert ids + [] == ids && Pick(blocks, ids) + [] == Pick(blocks, ids);
      }
    }

    // Takes the counts down; the blocks released go to one of two lists.
    method ReleaseAll(list: seq<KVCacheBlock>, ghost ids: seq<nat>, ghost warmth: set<nat>)
      returns (withHash: seq<KVCacheBlock>, withoutHash: seq<KVCacheBlock>, ghost warm: seq<nat>, ghost cold: seq<nat>)
      requires Keys() && Below(ids, |blocks|) && list == Pick(blocks, ids) && warmth == KeptWarm(cfg, st)
      modifies this`st, blocks`refCnt, blocks`cacheIdleSince
      ensures Keys() && InRange(old(st), ids) && st == Lowered(old(st), ids)
      ensures Sorted(old(st), ids, warmth, warm, cold)
      ensures Below(warm, |blocks|) && withHash == Pick(blocks, warm)
      ensures Below(cold, |blocks|) && withoutHash == Pick(blocks, cold)
    {
      ghost var s := st;
      withHash, withoutHash, warm, cold := [], [], [], [];
      ghost var done: seq<nat> := [];
      LoweredNone(s);
      for i := 0 to |list|
        invariant done == ids[..i] && Keys() && InRange(s, done) && st == Lowered(s, done)
        invariant Sorted(s, done, warmth, warm, cold)
        invariant Below(warm, |blocks|) && withHash == Pick(blocks, warm)
        invariant Below(cold, |blocks|) && withoutHash == Pick(blocks, cold)
      {
        var released, isCold := ReleaseOne(list[i], ids[i], s, done, warmth, warm, cold);
        PickMaybe(released && !isCold, warm, ids[i]);
        PickMaybe(released && isCold, cold, ids[i]);
        withHash := withHash + if released && !isCold then [list[i]] else [];
        withoutHash := withoutHash + if released && isCold then [list[i]] else [];
        warm, cold := warm + OneIf(released && !isCold, ids[i]), cold + OneIf(released && isCold, ids[i]);
        done := done + [ids[i]];
      }
      assert ids[..|ids|] == ids;
    }

    method SetIdleTime(block: KVCacheBlock, ghost b: nat, now: int)
      requires Keys() && b < |blocks| && block == blocks[b]
      modifies this`st, block`cacheIdleSince
      ensures Keys() && st == old(st).(blocks := old(st).blocks[b := old(st).blocks[b].(idleSince := Some(now))])
    {
      OpenKeySync();
      assert Carries(b, st.blocks);
      block.cacheIdleSince := Some(now);
      st := st.(blocks := st.blocks[b := st.blocks[b].(idleSince := Some(now))]);
      forall i
        ensures Carries(i, st.blocks)
      {
        assert old(Carries(i, st.blocks));
      }
    }

    method SetNextExpiry(t: Option<int>)
      requires Keys()
      modifies this`st, this`nextExpiry
      ensures Keys() && st == old(st).(nextExpiry := t)
    {
      OpenKeySync();
      nextExpiry := t;
      st := st.(nextExpiry := t);
    }

    method StampIdle(list: seq<KVCacheBlock>, ghost ids: seq<nat>, now: int)
      requires Keys() && Below(ids, |blocks|) && list == Pick(blocks, ids)
      modifies this`st, blocks`cacheIdleSince
      ensures Keys() && st == SetIdle(old(st), Elems(ids), now)
    {
      ghost var s := st;
      ghost var done: set<nat> := {};
      SetIdleNone(s, now);
      for i := 0 to |list|
        invariant done == Elems(ids[..i]) && Keys() && st == SetIdle(s, done, now)
      {
        ElemsUpTo(ids, i);
        SetIdleOneMore(s, done, now, ids[i]);
        SetIdleTime(list[i], ids[i], now);
        done := done + {ids[i]};
      }
      assert ids[..|ids|] == ids;
    }

    // Puts released blocks back: those without hash at the head, the others at the tail.
    method Requeue(cold: seq<KVCacheBlock>, warm: seq<KVCacheBlock>, ghost ids: seq<nat>, ghost coldIds: seq<nat>,
                   ghost warmIds: seq<nat>)
      requires Keys() && Queue(ids) && Below(coldIds, |blocks|) && Below(warmIds, |blocks|)
      requires cold == Pick(blocks, coldIds) && warm == Pick(blocks, warmIds) && Distinct(coldIds) && Distinct(warmIds)
      requires forall b :: b in warmIds ==> b !in ids && b !in coldIds
      requires forall b :: b in coldIds ==> b !in ids
      modifies queue`ring, queue`numFree, blocks`prev, blocks`next
      modifies queue.head`prev, queue.head`next, queue.tail`prev, queue.tail`next
      ensures Queue(coldIds + ids + warmIds)
    {
      Prepend(cold, ids, coldIds);
      OpenQueue(coldIds + ids);
      OpenBlock(0);
      PickMembers(blocks, warmIds);
      PickMembers(blocks, coldIds + ids);
      PickDistinct(blocks, warmIds);
      OutsideRing(warm, coldIds + ids, warmIds);
      RingWithin(coldIds + ids);
      queue.AppendN(warm);
      PickConcat(blocks, coldIds + ids, warmIds);
    }

    method Prepend(list: seq<KVCacheBlock>, ghost ids: seq<nat>, ghost more: seq<nat>)
      requires Keys() && Queue(ids) && Below(more, |blocks|) && list == Pick(blocks, more) && Distinct(more)
      requires forall b :: b in more ==> b !in ids
      modifies queue`ring, queue`numFree, blocks`prev, blocks`next
      modifies queue.head`prev, queue.head`next, queue.tail`prev, queue.tail`next
      ensures Queue(more + ids)
    {
      OpenQueue(ids);
      OpenBlock(0);
      PickDistinct(blocks, more);
      OutsideRing(list, ids, more);
      RingWithin(ids);
      PickMembers(blocks, more);
      queue.PrependN(list);
      PickConcat(blocks, more, ids);
    }

    lemma OutsideRing(list: seq<KVCacheBlock>, ids: seq<nat>, more: seq<nat>)
      requires QueueIs(ids) && Numbered(blocks) && Below(more, |blocks|) && list == Pick(blocks, more)
      requires forall b :: b in more ==> b !in ids
      ensures forall b :: b in list ==> b !in queue.ring
    {
      PickMembers(blocks, ids);
      PickMembers(blocks, more);
      forall i, k | 0 <= i < |list| && 0 <= k < |queue.ring|
        ensures list[i] != queue.ring[k]
      {
        assert list[i] == blocks[more[i]] && more[i] in more;
        if 0 < k < |queue.ring| - 1 {
          assert queue.ring[k] == queue.Free()[k - 1] == blocks[ids[k - 1]];
          assert blocks[more[i]].blockId == more[i] && blocks[ids[k - 1]].blockId == ids[k - 1];
          assert ids[k - 1] in ids;
        }
      }
    }

    // The cached bound comes down to t if it was later or absent.
    method BoundBy(t: int)
      requires Keys()
      modifies this`st, this`nextExpiry
      ensures Keys() && st == old(st).(nextExpiry := Earlier(old(st).nextExpiry, t))
    {
      OpenKeySync();
      if nextExpiry.None? || t < nextExpiry.value {
        SetNextExpiry(Some(t));
      }
    }

    method StampWarm(list: seq<KVCacheBlock>, ghost warm: seq<nat>, now: int)
      requires Keys() && Below(warm, |blocks|) && list == Pick(blocks, warm)
      modifies this`st, this`nextExpiry, blocks`cacheIdleSince
      ensures Keys()
      ensures st == Stamped(cfg, old(st), warm, now)
    {
      assert |list| == |warm|;
      if |list| > 0 && cfg.timeout.Some? {
        StampIdle(list, warm, now);
        BoundBy(now + cfg.timeout.value);
      }
    }

    method LowerAndQueue(list: seq<KVCacheBlock>, ghost ids: seq<nat>, now: int)
      requires Keys() && Queue(st.free) && Sound(st) && Below(ids, |blocks|) && list == Pick(blocks, ids)
      modifies this`st, this`nextExpiry, blocks`refCnt, blocks`cacheIdleSince, queue`ring, queue`numFree, blocks`prev
      modifies blocks`next
      modifies queue.head`prev, queue.head`next, queue.tail`prev, queue.tail`next
      ensures Keys() && Queue(st.free) && InRange(old(st), ids) && st == Free(cfg, old(st), ids, now)
    {
      ghost var ids' := st.free;
      ghost var warmth, warm, cold, lowered, stamped, goal := FreePlan(cfg, st, ids, now);
      var withHash, withoutHash := LowerAndStamp(list, ids, now, warmth, warm, cold, lowered, stamped);
      Return(withoutHash, withHash, ids', cold, warm, now);
    }

    method LowerAndStamp(list: seq<KVCacheBlock>, ghost ids: seq<nat>, now: int, ghost warmth: set<nat>,
                         ghost warm: seq<nat>,
                         ghost cold: seq<nat>, ghost lowered: State, ghost stamped: State)
      returns (withHash: seq<KVCacheBlock>, withoutHash: seq<KVCacheBlock>)
      requires Keys() && Below(ids, |blocks|) && list == Pick(blocks, ids) && warmth == KeptWarm(cfg, st)
      requires InRange(st, ids) && Sorted(st, ids, warmth, warm, cold)
      requires lowered == Lowered(st, ids) && stamped == Stamped(cfg, lowered, warm, now)
      modifies this`st, this`nextExpiry, blocks`refCnt, blocks`cacheIdleSince
      ensures Keys() && st == stamped
      ensures Below(warm, |blocks|) && withHash == Pick(blocks, warm)
      ensures Below(cold, |blocks|) && withoutHash == Pick(blocks, cold)
    {
      ghost var w, c;
      withHash, withoutHash, w, c := ReleaseAll(list, ids, warmth);
      StampWarm(withHash, warm, now);
    }

    // Puts released blocks back, with the abstract state.
    method Return(cold: seq<KVCacheBlock>, warm: seq<KVCacheBlock>, ghost ids: seq<nat>, ghost coldIds: seq<nat>,
                  ghost warmIds: seq<nat>, ghost now: int)
      requires Keys() && Queue(ids) && Below(coldIds, |blocks|) && Below(warmIds, |blocks|)
      requires cold == Pick(blocks, coldIds) && warm == Pick(blocks, warmIds) && Distinct(coldIds) && Distinct(warmIds)
      requires forall b :: b in warmIds ==> b !in ids && b !in coldIds
      requires forall b :: b in coldIds ==> b !in ids
      modifies this`st, queue`ring, queue`numFree, blocks`prev, blocks`next
      modifies queue.head`prev, queue.head`next, queue.tail`prev, queue.tail`next
      ensures Keys() && Queue(st.free) && st == old(st).(free := coldIds + ids + warmIds, clock := now)
    {
      Requeue(cold, warm, ids, coldIds, warmIds);
      SetQueue(coldIds + ids + warmIds, now);
    }

    // One holder less for each block; what nobody holds any more goes back to the queue.
    method FreeBlocks(list: seq<KVCacheBlock>, ghost ids: seq<nat>, now: int)
      requires Valid() && Below(ids, |blocks|) && list == Pick(blocks, ids) && NoOverFree(st, ids) && st.clock <= now
      modifies this, index, queue, queue.head, queue.tail, blocks
      ensures Valid() && InRange(old(st), ids) && st == Free(cfg, old(st), ids, now)
      ensures index == old(index) && surplus == old(surplus) && drained == old(drained)
    {
      FreeSound(cfg, st, ids, now);
      LowerAndQueue(list, ids, now);
    }

    // ---- Expiry ----

    // One block of the scan: it is due, or its deadline bounds the next scan, or neither.
    method Examine(block: KVCacheBlock, ghost b: nat, timeout: int, now: int, expired: seq<KVCacheBlock>,
                   next: Option<int>,
                   ghost i: nat, ghost due: seq<nat>)
      returns (expired': seq<KVCacheBlock>, next': Option<int>, ghost due': seq<nat>)
      requires Keys() && Sound(st) && IdleKnown(st) && i < |st.free| && b == st.free[i] < |blocks| && block == blocks[b]
      requires due == Keep(st.free[..i], DueFree(st, timeout, now)) && Below(due, |blocks|)
      requires expired == Pick(blocks, due)
      requires next == NextExpiry(st, timeout, now, st.free[..i])
      ensures due' == Keep(st.free[..i + 1], DueFree(st, timeout, now)) && Below(due', |blocks|)
      ensures expired' == Pick(blocks, due')
      ensures next' == NextExpiry(st, timeout, now, st.free[..i + 1])
    {
      OpenBlock(b);
      ScanOneMore(st, timeout, now, i);
      PickSnoc(blocks, due, b);
      assert due + [] == due;
      expired', next', due' := expired, next, due;
      if block.blockHash.None? {
        return;
      }
      if block.protectedUntil > now {
        if next.None? || block.protectedUntil < next.value {
          next' := Some(block.protectedUntil);
        }
        return;
      }
      // The program asserts here that the idle time is known.
      assert block.cacheIdleSince.Some?;
      var expiry := block.cacheIdleSince.value + timeout;
      if expiry <= now {
        expired', due' := expired + [block], due + [b];
      } else if next.None? || expiry < next.value {
        next' := Some(expiry);
      }
    }

    // Where the walk through the queue stands after i blocks.
    ghost predicate CursorAt(curr: KVCacheBlock?, ids: seq<nat>, i: nat)
      reads queue, queue.ring`prev, queue.ring`next
    {
      i <= |ids| && Queue(ids) && curr == if i < |ids| && ids[i] < |blocks| then blocks[ids[i]] else queue.tail
    }

    method FirstCursor(ghost ids: seq<nat>) returns (curr: KVCacheBlock?)
      requires Queue(ids)
      ensures CursorAt(curr, ids, 0) && Below(ids, |blocks|)
    {
      OpenQueue(ids);
      assert Joined(queue.ring, 0);
      curr := queue.head.next;
      assert |ids| > 0 ==> queue.ring[1] == queue.Free()[0];
    }

    method NextCursor(curr: KVCacheBlock, ghost ids: seq<nat>, ghost i: nat) returns (following: KVCacheBlock?)
      requires CursorAt(curr, ids, i) && i < |ids|
      ensures CursorAt(following, ids, i + 1)
    {
      OpenQueue(ids);
      assert queue.ring[i + 1] == queue.Free()[i];
      assert Joined(queue.ring, i + 1);
      following := curr.next;
      assert i + 1 < |ids| ==> queue.ring[i + 2] == queue.Free()[i + 1];
    }

    lemma AtTail(curr: KVCacheBlock?, ids: seq<nat>, i: nat)
      requires CursorAt(curr, ids, i)
      ensures curr != null && (curr == queue.tail <==> i == |ids|)
    {
      OpenQueue(ids);
    }

    method Scan(timeout: int, now: int) returns (expired: seq<KVCacheBlock>, next: Option<int>, ghost due: seq<nat>)
      requires Keys() && Queue(st.free) && Sound(st) && IdleKnown(st)
      ensures due == Keep(st.free, DueFree(st, timeout, now)) && Below(due, |blocks|) && expired == Pick(blocks, due)
      ensures next == NextExpiry(st, timeout, now, st.free)
    {
      expired, next, due := [], None, [];
      var curr := FirstCursor(st.free);
      ghost var i := 0;
      AtTail(curr, st.free, 0);
      while curr != null && curr != queue.tail
        invariant CursorAt(curr, st.free, i) && curr != null && (curr == queue.tail <==> i == |st.free|)
        invariant due == Keep(st.free[..i], DueFree(st, timeout, now)) && Below(due, |blocks|)
        invariant expired == Pick(blocks, due)
        invariant next == NextExpiry(st, timeout, now, st.free[..i])
        decreases |st.free| - i
      {
        expired, next, due := Examine(curr, st.free[i], timeout, now, expired, next, i, due);
        curr := NextCursor(curr, st.free, i);
        i := i + 1;
        AtTail(curr, st.free, i);
      }
      assert st.free[..|st.free|] == st.free;
    }

    // Unlinks each block and removes its keys, whose announcement is then owed.
    method ExpireAll(list: seq<KVCacheBlock>, ghost due: seq<nat>, ghost gone: set<nat>) returns (removed: seq<Key>)
      requires Keys() && Queue(st.free) && SoundKeys(st) && Balance(multiset{}, multiset{})
      requires Below(due, |blocks|) && Distinct(due) && list == Pick(blocks, due) && gone == Elems(due)
      requires forall b :: b in due ==> b in st.free
      modifies this`st, this`secondary, index, queue`ring, queue`numFree
      modifies blocks`prev, blocks`next, blocks`blockHash, blocks`blockHashNumTokens, blocks`cacheIdleSince
      modifies blocks`protectedUntil
      modifies queue.head`prev, queue.head`next, queue.tail`prev, queue.tail`next
      ensures Keys() && Queue(Drop(old(st).free, gone)) && st == RemoveAll(old(st), gone)
      ensures Owing(removed)
    {
      ghost var s := st;
      ExpireNone(s);
      removed := [];
      ghost var done: set<nat> := {};
      for i := 0 to |list|
        invariant done == Elems(due[..i])
        invariant Keys() && Queue(Drop(s.free, done)) && st == RemoveAll(s, done)
        invariant Owing(removed)
      {
        ElemsUpTo(due, i);
        removed := ExpireNext(list[i], due[i], removed, s, done);
        done := done + {due[i]};
      }
      assert due[..|due|] == due;
    }

    // The removals still to be announced, as a sealed fact.
    ghost predicate Owing(removed: seq<Key>)
      reads this`st, this`log, this`surplus, this`drained, this`eventQueue
    {
      forall r {:trigger LookOwed(r)} :: LookOwed(r) && r == removed ==>
        Balance(multiset(r), multiset{}) && forall k :: k in r ==> |k| >= 4
    }

    lemma OpenOwing(removed: seq<Key>)
      requires Owing(removed)
      ensures Balance(multiset(removed), multiset{}) && forall k :: k in removed ==> |k| >= 4
    {
      assert LookOwed(removed);
    }

    method ExpireNext(block: KVCacheBlock, ghost b: nat, removed: seq<Key>, ghost s: State, ghost done: set<nat>)
      returns (removed': seq<Key>)
      requires Keys() && SoundKeys(s) && st == RemoveAll(s, done) && Queue(Drop(s.free, done))
      requires Owing(removed)
      requires b < |blocks| && block == blocks[b] && b in s.free && b !in done
      modifies this`st, this`secondary, index, queue`ring, queue`numFree
      modifies blocks`prev, blocks`next, blocks`blockHash, blocks`blockHashNumTokens, blocks`cacheIdleSince
      modifies blocks`protectedUntil
      modifies queue.head`prev, queue.head`next, queue.tail`prev, queue.tail`next
      ensures Keys() && Queue(Drop(s.free, done + {b})) && st == RemoveAll(s, done + {b})
      ensures Owing(removed')
    {
      ExpireStep(s, done, b);
      removed' := ExpireOne(block, b, removed, Drop(s.free, done));
    }

    method ExpireOne(block: KVCacheBlock, ghost b: nat, removed: seq<Key>, ghost ids: seq<nat>)
      returns (removed': seq<Key>)
      requires Keys() && Queue(ids) && SoundKeys(st) && Owing(removed)
      requires b < |blocks| && block == blocks[b] && b in ids
      modifies this`st, this`secondary, index, queue`ring, queue`numFree
      modifies blocks`prev, blocks`next, blocks`blockHash, blocks`blockHashNumTokens, blocks`cacheIdleSince
      modifies blocks`protectedUntil
      modifies queue.head`prev, queue.head`next, queue.tail`prev, queue.tail`next
      ensures Keys() && Queue(Drop(ids, {b})) && st == RemoveAll(old(st), {b})
      ensures Owing(removed')
    {
      Unqueue(block, b, ids);
      OpenOwing(removed);
      var more := TakeKeys(block, b, multiset(removed), multiset{});
      OwingMore(removed, more);
      removed' := removed + more;
    }

    lemma OwingMore(removed: seq<Key>, more: seq<Key>)
      requires Balance(multiset(more) + multiset(removed), multiset{})
      requires forall k :: k in removed || k in more ==> |k| >= 4
      ensures Owing(removed + more)
    {
      assert multiset(removed + more) == multiset(more) + multiset(removed);
    }

    // Free cached blocks that have been idle for too long lose their keys; returns how many did.
    method ExpireCachedBlocks(now: int) returns (count: nat)
      requires Valid() && (cfg.timeout.Some? ==> IdleKnown(st)) && st.clock <= now
      modifies this, index, queue, queue.head, queue.tail, blocks
      ensures Valid() && st == Expire(cfg, old(st), now)
      ensures ScanNeeded(cfg, old(st), now) ==>
                count == |Keep(old(st).free, DueFree(old(st), cfg.timeout.value, now))|
      ensures !ScanNeeded(cfg, old(st), now) ==> count == 0
      ensures index == old(index) && surplus == old(surplus) && drained == old(drained)
    {
      ExpireSound(cfg, st, now);
      OpenKeySync();
      if cfg.timeout.None? || nextExpiry.None? || now < nextExpiry.value {
        SetQueue(st.free, now);
        assert forall k :: IndexOf(st, k) == IndexOf(old(st), k);
        return 0;
      }
      count := ExpireDue(cfg.timeout.value, now);
    }

    method ReturnExpired(list: seq<KVCacheBlock>, ghost ids: seq<nat>, ghost more: seq<nat>, ghost now: int)
      requires Keys() && Queue(ids) && Below(more, |blocks|) && list == Pick(blocks, more) && Distinct(more)
      requires forall b :: b in more ==> b !in ids
      modifies this`st, queue`ring, queue`numFree, blocks`prev, blocks`next
      modifies queue.head`prev, queue.head`next, queue.tail`prev, queue.tail`next
      ensures Keys() && Queue(st.free) && st == old(st).(free := more + ids, clock := now)
    {
      Prepend(list, ids, more);
      SetQueue(more + ids, now);
    }

    // Puts the expired blocks in front and announces the keys they lost.
    method FinishExpiry(list: seq<KVCacheBlock>, ghost ids: seq<nat>, ghost more: seq<nat>, ghost now: int,
                        removed: seq<Key>, next: Option<int>)
      requires Keys() && Queue(ids) && Below(more, |blocks|) && list == Pick(blocks, more) && Distinct(more)
      requires (forall b :: b in more ==> b !in ids) && Owing(removed)
      modifies this`st, queue`ring, queue`numFree, blocks`prev, blocks`next
      modifies queue.head`prev, queue.head`next, queue.tail`prev, queue.tail`next
      modifies this`nextExpiry, this`eventQueue, this`log
      ensures Sync() && Balance(multiset{}, multiset{})
      ensures st == old(st).(free := more + ids, clock := now).(nextExpiry := next)
      ensures drained == old(drained)
    {
      OpenOwing(removed);
      ReturnExpired(list, ids, more, now);
      assert forall k :: IndexOf(st, k) == IndexOf(old(st), k);
      Announce(removed, next);
    }

    method Announce(removed: seq<Key>, next: Option<int>)
      requires Keys() && Queue(st.free) && Balance(multiset(removed), multiset{})
      requires forall k :: k in removed ==> |k| >= 4
      modifies this`st, this`nextExpiry, this`eventQueue, this`log
      ensures Sync() && Balance(multiset{}, multiset{}) && st == old(st).(nextExpiry := next) && drained == old(drained)
    {
      EmitRemoved(removed, multiset{}, multiset{});
      SetBound(next);
    }

    method SetBound(next: Option<int>)
      requires Keys() && Queue(st.free) && Balance(multiset{}, multiset{})
      modifies this`st, this`nextExpiry
      ensures Sync() && Balance(multiset{}, multiset{}) && st == old(st).(nextExpiry := next)
    {
      SetNextExpiry(next);
      assert forall k :: IndexOf(st, k) == IndexOf(old(st), k);
    }

    method ExpireDue(timeout: int, now: int) returns (count: nat)
      requires Sync() && Sound(st) && Balance(multiset{}, multiset{}) && IdleKnown(st)
      requires cfg.timeout == Some(timeout) && ScanNeeded(cfg, st, now)
      modifies this`st, this`secondary, this`nextExpiry, this`eventQueue, this`log
      modifies index, queue`ring, queue`numFree, queue.head`prev, queue.head`next, queue.tail`prev, queue.tail`next
      modifies blocks
      ensures Sync() && Balance(multiset{}, multiset{}) && st == Expire(cfg, old(st), now)
      ensures count == |Keep(old(st).free, DueFree(old(st), timeout, now))|
    {
      ghost var due, rest, gone, nextBound, mid, goal := ExpirePlan(cfg, st, now);
      var expired, next, removed := ScanAndRemove(timeout, now, due, gone, mid, nextBound);
      FinishExpiry(expired, rest, due, now, removed, next);
      return |expired|;
    }

    // Finds the due blocks, unlinks them and removes their keys.
    method ScanAndRemove(timeout: int, now: int, ghost due: seq<nat>, ghost gone: set<nat>, ghost mid: State,
                         ghost bound: Option<int>)
      returns (expired: seq<KVCacheBlock>, next: Option<int>, removed: seq<Key>)
      requires Sync() && Sound(st) && Balance(multiset{}, multiset{}) && IdleKnown(st) && InRange(st, due)
      requires due == Keep(st.free, DueFree(st, timeout, now)) && Distinct(due) && gone == Elems(due)
      requires forall b :: b in due ==> b in st.free
      requires mid == RemoveAll(st, gone) && bound == NextExpiry(st, timeout, now, st.free)
      modifies this`st, this`secondary, index, queue`ring, queue`numFree, blocks
      modifies queue.head`prev, queue.head`next, queue.tail`prev, queue.tail`next
      ensures Keys() && Queue(Drop(old(st).free, gone)) && st == mid && next == bound
      ensures Below(due, |blocks|) && expired == Pick(blocks, due) && Owing(removed)
    {
      SoundHasSoundKeys(st);
      ghost var d;
      expired, next, d := Scan(timeout, now);
      removed := ExpireAll(expired, due, gone);
    }

    // ---- Evict, reset, protect ----

    // Drops the keys of the given blocks, in any order; nothing else changes.
    method EvictBlocks(blockIds: set<nat>)
      requires Valid() && forall b :: b in blockIds ==> b < |blocks|
      modifies this, index, blocks
      ensures Valid() && st == RemoveAll(old(st), blockIds)
      ensures index == old(index) && surplus == old(surplus) && drained == old(drained)
    {
      EvictSound(st, blockIds);
      SoundHasSoundKeys(st);
      EvictAll(blockIds);
    }

    method EvictAll(blockIds: set<nat>)
      requires Keys() && SoundKeys(st) && Balance(multiset{}, multiset{}) && forall b :: b in blockIds ==> b < |blocks|
      modifies this`st, this`secondary, index, this`eventQueue, this`log
      modifies blocks`blockHash, blocks`blockHashNumTokens, blocks`cacheIdleSince, blocks`protectedUntil
      ensures Keys() && st == RemoveAll(old(st), blockIds) && Balance(multiset{}, multiset{})
    {
      ghost var s := st;
      ExpireNone(s);
      var rest := blockIds;
      ghost var done: set<nat> := {};
      while rest != {}
        invariant rest <= blockIds && done == blockIds - rest
        invariant Keys() && st == RemoveAll(s, done) && Balance(multiset{}, multiset{})
        decreases rest
      {
        var b :| b in rest;
        RemovedSoundKeys(s, done);
        RemoveAllCompose(s, done, {b});
        var _ := MaybeEvictCachedBlock(blocks[b], b);
        rest := rest - {b};
        done := done + {b};
      }
      assert done == blockIds;
    }

    // Refused while a block other than the null block is in use.
    method ResetPrefixCache() returns (ok: bool)
      requires Valid()
      modifies this`st, this`index, this`secondary, this`nextExpiry, this`eventQueue, this`log, this`surplus
      modifies blocks`blockHash, blocks`blockHashNumTokens, blocks`cacheIdleSince, blocks`protectedUntil
      ensures Valid() && st == ResetCache(old(st)) && ok == (|blocks| - |old(st).free| == 1)
      ensures index == old(index) || fresh(index)
      ensures surplus == (if ok then multiset{} else old(surplus)) && drained == old(drained)
    {
      var used := |blocks| - queue.numFree;
      if used != 1 {
        return false;
      }
      ResetSound(st);
      ResetAll(ResetCache(st));
      Clear();
      return true;
    }

    method ResetAll(ghost goal: State)
      requires Keys() && goal == ResetCache(st) && |st.blocks| - |st.free| == 1
      modifies this`st, this`index, this`secondary, this`nextExpiry
      modifies blocks`blockHash, blocks`blockHashNumTokens, blocks`cacheIdleSince, blocks`protectedUntil
      ensures Keys() && st == goal && fresh(index)
    {
      ResetAssembled(st);
      ForgetKeys();
      ResetBlocks();
      SetNextExpiry(None);
    }

    // An empty index in place of the old one.
    method ForgetKeys()
      requires Keys()
      modifies this`st, this`index, this`secondary
      ensures Keys() && fresh(index) && st == old(st).(index := map[], secondary := map[])
    {
      OpenKeySync();
      index := new BlockHashToBlockMap(blocks);
      secondary := map[];
      st := st.(index := map[], secondary := map[]);
    }

    method ResetBlocks()
      requires Keys()
      modifies this`st, blocks`blockHash, blocks`blockHashNumTokens, blocks`cacheIdleSince, blocks`protectedUntil
      ensures Keys() && st == ResetUpTo(old(st), |blocks|)
    {
      ghost var s := st;
      ResetNone(s);
      for i := 0 to |blocks|
        invariant Keys() && st == ResetUpTo(s, i)
      {
        ResetOneMore(s, i);
        ResetMeta(blocks[i], i);
      }
    }

    method ResetMeta(block: KVCacheBlock, ghost b: nat)
      requires Keys() && b < |blocks| && block == blocks[b]
      modifies this`st, block`blockHash, block`blockHashNumTokens, block`cacheIdleSince, block`protectedUntil
      ensures Keys() && st == old(st).(blocks := old(st).blocks[b := old(st).blocks[b].Reset()])
    {
      OpenKeySync();
      assert Carries(b, st.blocks);
      block.ResetHash();
      st := st.(blocks := st.blocks[b := st.blocks[b].Reset()]);
      forall i
        ensures Carries(i, st.blocks)
      {
        assert old(Carries(i, st.blocks));
      }
    }

    // Announces that everything is gone; the accounts start anew.
    method Clear()
      requires log == drained + eventQueue && (!eventsOn ==> log == []) && st.index == map[]
      modifies this`eventQueue, this`log, this`surplus
      ensures Balance(multiset{}, multiset{}) && surplus == multiset{}
      ensures eventQueue == old(eventQueue) + if eventsOn then [AllBlocksCleared] else []
    {
      if eventsOn {
        eventQueue := eventQueue + [AllBlocksCleared];
        log := log + [AllBlocksCleared];
      }
      surplus := multiset{};
    }

    // The scheduler raises the deadline of a request's blocks; it is never lowered.
    method StampProtection(list: seq<KVCacheBlock>, ghost ids: seq<nat>, until: int)
      requires Valid() && Below(ids, |blocks|) && list == Pick(blocks, ids)
      modifies this`st, blocks`protectedUntil
      ensures Valid() && st == Protect(old(st), ids, until)
    {
      ProtectSound(st, ids, until);
      ghost var s := st;
      ProtectNone(s, until);
      for i := 0 to |list|
        invariant Keys() && st == Protect(s, ids[..i], until)
      {
        assert ids[..i + 1] == ids[..i] + [ids[i]];
        ProtectOneMore(s, ids[..i], until, ids[i]);
        OpenBlock(ids[i]);
        SetProtection(list[i], ids[i], if list[i].protectedUntil < until then until else list[i].protectedUntil);
      }
      assert ids[..|ids|] == ids;
    }

    // Hands over the events queued so far.
    method TakeEvents() returns (events: seq<Event>)
      requires Valid()
      modifies this`eventQueue, this`drained
      ensures Valid() && events == old(eventQueue) && eventQueue == [] && drained == old(drained) + events
    {
      if !eventsOn {
        return [];
      }
      events := eventQueue;
      eventQueue := [];
      drained := drained + events;
    }

    // The longest-cached block under the hash for each group, or None on a miss of any group.
    method GetCachedBlock(hash: Bytes, groups: seq<nat>) returns (found: Option<seq<KVCacheBlock>>)
      requires Valid() && forall i :: 0 <= i < |groups| ==> groups[i] < GROUP_LIMIT
      ensures found.Some? <==> forall i :: 0 <= i < |groups| ==> IndexOf(st, MakeKey(hash, groups[i])) != []
      ensures found.Some? ==> |found.value| == |groups| && forall i :: 0 <= i < |groups| ==>
                LongestCached(found.value[i], MakeKey(hash, groups[i]))
    {
      var list: seq<KVCacheBlock> := [];
      for i := 0 to |groups|
        invariant |list| == i
        invariant forall j :: 0 <= j < i ==> IndexOf(st, MakeKey(hash, groups[j])) != []
        invariant forall j :: 0 <= j < i ==> LongestCached(list[j], MakeKey(hash, groups[j]))
      {
        var block := OneBlock(MakeKey(hash, groups[i]));
        if block == null {
          return None;
        }
        list := list + [block];
      }
      return Some(list);
    }

    ghost predicate LongestCached(block: KVCacheBlock, key: Key)
      reads this`st
    {
      IndexOf(st, key) != [] && IndexOf(st, key)[0] < |blocks| && block == blocks[IndexOf(st, key)[0]]
    }

    method OneBlock(key: Key) returns (block: KVCacheBlock?)
      requires Valid()
      ensures block == null <==> IndexOf(st, key) == []
      ensures block != null ==> LongestCached(block, key)
    {
      OpenKeySync();
      IdsAreNumbers(st.blocks);
      Open(st);
      block := index.GetOneBlock(key);
    }

    // ---- Caching ----

    // Takes the block's keys off and announces it.
    method DropKeys(block: KVCacheBlock, ghost b: nat, ghost stored: multiset<Key>)
      requires Keys() && SoundKeys(st) && Balance(multiset{}, stored) && b < |blocks| && block == blocks[b]
      modifies this`st, this`secondary, index, this`eventQueue, this`log
      modifies block`blockHash, block`blockHashNumTokens, block`cacheIdleSince, block`protectedUntil
      ensures Keys() && st == RemoveAll(old(st), {b}) && Balance(multiset{}, stored) && drained == old(drained)
    {
      var removed := TakeKeys(block, b, multiset{}, stored);
      EmitRemoved(removed, multiset{}, stored);
    }

    // Attaches the key; its announcement is owed, in excess when the block had the key already.
    method AttachOwed(block: KVCacheBlock, ghost b: nat, key: Key, tokens: nat, ghost stored: multiset<Key>)
      requires Keys() && SoundKeys(st) && Balance(multiset{}, stored) && b < |blocks| && block == blocks[b]
      requires |key| >= 4
      modifies this`st, this`secondary, index, block`blockHash, block`blockHashNumTokens, this`surplus
      ensures Keys() && st == InsertHash(old(st), b, key, tokens) && Balance(multiset{}, stored + multiset{key})
      ensures surplus == old(surplus) + if key in KeysOf(old(st), b) then multiset{key} else multiset{}
    {
      CountInserted(st, b, key, tokens);
      ghost var had := key in KeysOf(st, b);
      InsertBlockHash(key, block, b, Some(tokens));
      if had {
        surplus := surplus + multiset{key};
      }
    }

    // One item: keys of a shorter prefix give way, and the new key is attached.
    method CacheOne(block: KVCacheBlock, ghost b: nat, key: Key, tokens: nat, ghost stored: multiset<Key>)
      requires Keys() && SoundKeys(st) && Balance(multiset{}, stored) && b < |blocks| && block == blocks[b]
      requires |key| >= 4
      requires ItemReady(st, Item(b, key, tokens))
      modifies this`st, this`secondary, index, this`eventQueue, this`log, this`surplus
      modifies block`blockHash, block`blockHashNumTokens, block`cacheIdleSince, block`protectedUntil
      ensures Keys() && st == CacheItem(old(st), Item(b, key, tokens)) && Balance(multiset{}, stored + multiset{key})
      ensures surplus == old(surplus) + if Repeats(old(st), Item(b, key, tokens)) then multiset{key} else multiset{}
      ensures drained == old(drained)
    {
      OpenBlock(b);
      ghost var s1 := CacheItemPlan(st, Item(b, key, tokens));
      if block.blockHash.Some? {
        if block.blockHashNumTokens.value < tokens {
          DropKeys(block, b, stored);
        } else {
          // Keys of several groups for one boundary share the block.
          assert block.blockHashNumTokens.value == tokens;
          assert GetBlockHash(block.blockHash.value) == GetBlockHash(key)
              && GetGroupId(block.blockHash.value) != GetGroupId(key);
        }
      }
      AttachOwed(block, b, key, tokens, stored);
    }

    // Announces the hashes that are owed.
    method EmitStored(event: Event, ghost stored: multiset<Key>)
      requires event.BlockStored? && event.group < GROUP_LIMIT
      requires Balance(multiset{}, stored) && forall k :: Announced(event.hashes, event.group, k) == stored[k]
      modifies this`eventQueue, this`log
      ensures Balance(multiset{}, multiset{}) && eventQueue == old(eventQueue) + if eventsOn then [event] else []
    {
      if eventsOn {
        forall k
          ensures Net(log + [event], k) == Net(log, k) + stored[k]
        {
          NetStored(log, event, k);
        }
        eventQueue := eventQueue + [event];
        log := log + [event];
      }
    }

    // The loop over the new full blocks; the hashes of the blocks cached are to be announced.
    method CacheAll(hashes: seq<Bytes>, list: seq<KVCacheBlock>, cached: nat, full: nat, blockSize: nat, group: nat,
                    mask: Option<seq<bool>>, ghost c: Batch)
      returns (newHashes: seq<Bytes>, ghost stored: multiset<Key>)
      requires Keys() && Sound(st) && Balance(multiset{}, multiset{})
      requires c.Ok() && Below(c.ids, |blocks|) && list == Pick(blocks, c.ids)
      requires c == Batch(c.ids, hashes, cached, full, blockSize, group, mask)
      requires BatchReadyFor(st, c)
      modifies this`st, this`secondary, index, this`eventQueue, this`log, this`surplus
      modifies blocks`blockHash, blocks`blockHashNumTokens, blocks`cacheIdleSince, blocks`protectedUntil
      ensures SoFar(old(st), c.Items(full), group, newHashes, stored, old(surplus)) && drained == old(drained)
    {
      ghost var s, before := st, surplus;
      newHashes, stored := [], multiset{};
      ghost var front: seq<Item> := [];
      NothingCachedYet(group);
      for i := cached to full
        invariant front == c.Items(i)
        invariant SoFar(s, front, group, newHashes, stored, before)
        invariant drained == old(drained)
      {
        var masked := mask.Some? && !mask.value[i - cached];
        var tokens := TokenCount(i + 1, blockSize);
        newHashes, stored := CacheRound(list[i], masked, hashes[i], tokens, group, c, i, s, front, newHashes, stored,
                                        before);
        front := c.Items(i + 1);
      }
    }

    // One block of the loop: null blocks and masked-out blocks are passed over.
    method CacheRound(block: KVCacheBlock, masked: bool, hash: Bytes, tokens: nat, group: nat, ghost c: Batch,
                      ghost i: nat,
                      ghost s: State, ghost front: seq<Item>, newHashes: seq<Bytes>, ghost stored: multiset<Key>,
                          ghost before: multiset<Key>)
      returns (newHashes': seq<Bytes>, ghost stored': multiset<Key>)
      requires Sound(s) && c.Ok() && c.cached <= i < c.full && c.group == group && BatchReadyFor(s, c)
      requires c.ids[i] < |blocks| && block == blocks[c.ids[i]] && hash == c.hashes[i]
      requires tokens == TokensIn(i + 1, c.blockSize)
      requires masked == (c.mask.Some? && !c.mask.value[i - c.cached])
      requires front == c.Items(i) && SoFar(s, front, group, newHashes, stored, before)
      modifies this`st, this`secondary, index, this`eventQueue, this`log, this`surplus
      modifies blocks`blockHash, blocks`blockHashNumTokens, blocks`cacheIdleSince, blocks`protectedUntil
      ensures SoFar(s, c.Items(i + 1), group, newHashes', stored', before) && drained == old(drained)
    {
      ghost var skip, it, more := BatchStep(s, c, i);
      OpenBlock(c.ids[i]);
      if block.isNull || masked {
        return newHashes, stored;
      }
      newHashes', stored' := CacheNext(block, it, hash, tokens, group, s, front, newHashes, stored, before);
    }

    // The state of the loop after the items in front, sealed and open.
    ghost predicate SoFar(s: State, front: seq<Item>, group: nat, newHashes: seq<Bytes>, stored: multiset<Key>,
                          before: multiset<Key>)
      reads this`st, this`index, this`secondary, this`nextExpiry, index, this`log, this`surplus, this`drained
      reads this`eventQueue
      reads blocks`refCnt, blocks`blockHash, blocks`blockHashNumTokens, blocks`cacheIdleSince, blocks`protectedUntil
      reads blocks`isNull
    {
      Keys() && forall t {:trigger Look(t)} :: Look(t) && t == s ==>
          CachedSoFar(t, front, group, newHashes, stored, before)
    }

    // All items are cached and announced.
    ghost predicate AllCached(s: State, items: seq<Item>, before: multiset<Key>)
      reads this`st, this`index, this`secondary, this`nextExpiry, index, this`log, this`surplus, this`drained
      reads this`eventQueue
      reads blocks`refCnt, blocks`blockHash, blocks`blockHashNumTokens, blocks`cacheIdleSince, blocks`protectedUntil
      reads blocks`isNull
    {
      && Keys() && Balance(multiset{}, multiset{})
      && forall t {:trigger Look(t)} :: Look(t) && t == s ==>
           ItemsReady(t, items) && st == CacheItems(t, items) && surplus == before + Repeated(t, items)
    }

    // The hashes to announce are those of the items.
    lemma ListedSoFar(s: State, front: seq<Item>, group: nat, newHashes: seq<Bytes>, stored: multiset<Key>,
                      before: multiset<Key>)
      requires SoFar(s, front, group, newHashes, stored, before)
      ensures newHashes == HashesOf(front)
    {
      assert Look(s);
    }

    lemma NothingCachedYet(group: nat)
      requires Keys() && Balance(multiset{}, multiset{}) && group < GROUP_LIMIT
      ensures SoFar(st, [], group, [], multiset{}, surplus)
    {
    }

    ghost predicate CachedSoFar(s: State, front: seq<Item>, group: nat, newHashes: seq<Bytes>, stored: multiset<Key>,
                                before: multiset<Key>)
      reads this`st, this`index, this`secondary, this`nextExpiry, index, this`log, this`surplus, this`drained
      reads this`eventQueue
      reads blocks`refCnt, blocks`blockHash, blocks`blockHashNumTokens, blocks`cacheIdleSince, blocks`protectedUntil
      reads blocks`isNull
    {
      && ItemsReady(s, front) && st == CacheItems(s, front) && Keys() && Balance(multiset{}, stored)
      && newHashes == HashesOf(front) && surplus == before + Repeated(s, front)
      && group < GROUP_LIMIT && forall k :: Announced(newHashes, group, k) == stored[k]
    }

    method CacheNext(block: KVCacheBlock, ghost it: Item, hash: Bytes, tokens: nat, group: nat, ghost s: State,
                     ghost front: seq<Item>,
                     newHashes: seq<Bytes>, ghost stored: multiset<Key>, ghost before: multiset<Key>)
      returns (newHashes': seq<Bytes>, ghost stored': multiset<Key>)
      requires group < GROUP_LIMIT && SoFar(s, front, group, newHashes, stored, before) && OneMore(s, front, it)
      requires it.block < |blocks| && block == blocks[it.block] && it.key == MakeKey(hash, group) && it.tokens == tokens
      requires |it.key| >= 4 && GetBlockHash(it.key) == hash
      modifies this`st, this`secondary, index, this`eventQueue, this`log, this`surplus
      modifies block`blockHash, block`blockHashNumTokens, block`cacheIdleSince, block`protectedUntil
      ensures SoFar(s, front + [it], group, newHashes', stored', before) && drained == old(drained)
    {
      assert Look(s);
      var key := MakeKey(hash, group);
      CacheOne(block, it.block, key, tokens, stored);
      AnnouncedMore(newHashes, hash, group);
      newHashes', stored' := newHashes + [hash], stored + multiset{key};
    }

    // Caches the full blocks from position cached up to full of a request.
    method CacheFullBlocks(requestHashes: seq<Bytes>, list: seq<KVCacheBlock>, cached: nat, full: nat, blockSize: nat,
                           group: nat,
                           mask: Option<seq<bool>>, ghost c: Batch)
      requires Valid() && Fits(hashBlockSize, blockSize)
      requires c == Batch(c.ids, Resolve(requestHashes, hashBlockSize, blockSize), cached, full, blockSize, group, mask)
      requires Below(c.ids, |blocks|) && list == Pick(blocks, c.ids)
      requires cached < full ==> c.Ok() && ItemsReady(st, c.Items(full))
      modifies this, index, blocks
      ensures Valid() && drained == old(drained) && index == old(index)
      ensures cached >= full ==> st == old(st) && eventQueue == old(eventQueue) && surplus == old(surplus)
      ensures cached < full ==>
                st == CacheItems(old(st), c.Items(full)) && surplus == old(surplus) + Repeated(old(st), c.Items(full))
      ensures cached < full && eventsOn ==> eventQueue != [] && eventQueue[|eventQueue| - 1] == StoredEvent(c)
    {
      if cached >= full {
        return;
      }
      var hashes := Resolve(requestHashes, hashBlockSize, blockSize);
      BatchReal(c, full);
      CachedSound(st, c.Items(full));
      CachedQueue(st, c.Items(full));
      CacheAndAnnounce(hashes, list, cached, full, blockSize, group, mask, c);
      assert Look(old(st));
    }

    method CacheAndAnnounce(hashes: seq<Bytes>, list: seq<KVCacheBlock>, cached: nat, full: nat, blockSize: nat,
                            group: nat,
                            mask: Option<seq<bool>>, ghost c: Batch)
      requires Keys() && Sound(st) && Balance(multiset{}, multiset{})
      requires c.Ok() && Below(c.ids, |blocks|) && list == Pick(blocks, c.ids)
      requires c == Batch(c.ids, hashes, cached, full, blockSize, group, mask)
      requires ItemsReady(st, c.Items(full))
      modifies this`st, this`secondary, index, this`eventQueue, this`log, this`surplus
      modifies blocks`blockHash, blocks`blockHashNumTokens, blocks`cacheIdleSince, blocks`protectedUntil
      ensures AllCached(old(st), c.Items(full), old(surplus)) && drained == old(drained)
      ensures eventsOn ==> eventQueue != [] && eventQueue[|eventQueue| - 1] == StoredEvent(c)
    {
      var newHashes;
      ghost var stored;
      ghost var s, before := st, surplus;
      newHashes, stored := CacheAll(hashes, list, cached, full, blockSize, group, mask, c);
      var event := NewEvent(newHashes, hashes, cached, full, blockSize, group, c, s, stored, before);
      EmitNew(event, s, c.Items(full), stored, before);
    }

    method NewEvent(newHashes: seq<Bytes>, hashes: seq<Bytes>, cached: nat, full: nat, blockSize: nat, group: nat,
                    ghost c: Batch,
                    ghost s: State, ghost stored: multiset<Key>, ghost before: multiset<Key>) returns (event: Event)
      requires c.Ok() && c == Batch(c.ids, hashes, cached, full, blockSize, group, c.mask)
      requires SoFar(s, c.Items(full), group, newHashes, stored, before)
      ensures event == StoredEvent(c) && event.hashes == newHashes
    {
      ListedSoFar(s, c.Items(full), group, newHashes, stored, before);
      var parent := if cached == 0 then None else Some(hashes[cached - 1]);
      var start := TokenCount(cached, blockSize);
      var end := TokenCount(full, blockSize);
      event := BlockStored(newHashes, parent, start, end, blockSize, group);
    }

    // Announces what the loop has cached.
    method EmitNew(event: Event, ghost s: State, ghost items: seq<Item>, ghost stored: multiset<Key>,
                   ghost before: multiset<Key>)
      requires event.BlockStored? && SoFar(s, items, event.group, event.hashes, stored, before)
      modifies this`eventQueue, this`log
      ensures AllCached(s, items, before)
      ensures eventQueue == old(eventQueue) + if eventsOn then [event] else []
    {
      assert Look(s);
      EmitStored(event, stored);
    }

    static method TokenCount(numBlocks: nat, blockSize: nat) returns (tokens: nat)
      ensures tokens == TokensIn(numBlocks, blockSize)
    {
      TokensInIs(numBlocks, blockSize);
      tokens := numBlocks * blockSize;
    }

    // Announces blocks reused from the cache once more; nothing is cached.
    method EmitCachedBlockEvents(requestHashes: seq<Bytes>, numCached: nat, blockSize: nat, group: nat,
                                 ghost view: seq<Bytes>)
      requires Valid() && group < GROUP_LIMIT
      requires Fits(hashBlockSize, blockSize) && view == Resolve(requestHashes, hashBlockSize, blockSize)
      requires numCached <= |view|
      modifies this`eventQueue, this`log, this`surplus
      ensures Valid() && st == old(st)
      ensures forall k :: surplus[k] == old(surplus)[k] + if eventsOn then Announced(view[..numCached], group, k) else 0
      ensures var again := BlockStored(view[..numCached], None, 0, TokensIn(numCached, blockSize), blockSize, group);
        eventQueue == old(eventQueue) + if eventsOn && numCached > 0 then [again] else []
    {
      if !eventsOn || numCached == 0 {
        return;
      }
      var hashes := Resolve(requestHashes, hashBlockSize, blockSize);
      var end := TokenCount(numCached, blockSize);
      AnnounceAgain(hashes, numCached, end, blockSize, group);
    }

    method AnnounceAgain(hashes: seq<Bytes>, n: nat, end: nat, blockSize: nat, group: nat)
      requires eventsOn && Balance(multiset{}, multiset{}) && 0 < n <= |hashes| && group < GROUP_LIMIT
      modifies this`eventQueue, this`log, this`surplus
      ensures Balance(multiset{}, multiset{})
      ensures forall k :: surplus[k] == old(surplus)[k] + Announced(hashes[..n], group, k)
      ensures eventQueue == old(eventQueue) + [BlockStored(hashes[..n], None, 0, end, blockSize, group)]
    {
      var cachedHashes: seq<Bytes> := [];
      ghost var again: multiset<Key> := multiset{};
      for i := 0 to n
        invariant Balance(multiset{}, multiset{}) && surplus == old(surplus) && eventQueue == old(eventQueue)
        invariant cachedHashes == hashes[..i]
        invariant forall k :: Announced(cachedHashes, group, k) == again[k]
      {
        AnnouncedMore(cachedHashes, hashes[i], group);
        assert hashes[..i + 1] == hashes[..i] + [hashes[i]];
        cachedHashes := cachedHashes + [hashes[i]];
        again := again + multiset{MakeKey(hashes[i], group)};
      }
      surplus := surplus + again;
      EmitStored(BlockStored(cachedHashes, None, 0, end, blockSize, group), again);
    }

    // Makes an existing block reachable from a boundary inside it; null blocks are left alone.
    method CachePartialBlock(requestHashes: seq<Bytes>, block: KVCacheBlock, ghost b: nat, numTokens: nat, group: nat,
                             blockSize: nat)
      returns (key: Option<Key>)
      requires Valid() && b < |blocks| && block == blocks[b] && group < GROUP_LIMIT
      requires b != NULL_BLOCK ==>
                Fits(hashBlockSize, blockSize) && hashBlockSize < blockSize && numTokens % blockSize != 0
      requires b != NULL_BLOCK ==> numTokens % hashBlockSize == 0 && 0 < numTokens / hashBlockSize <= |requestHashes|
      modifies this, index, block
      ensures Valid() && surplus == old(surplus) && drained == old(drained) && index == old(index)
      ensures b == NULL_BLOCK ==> key.None? && st == old(st) && eventQueue == old(eventQueue)
      ensures b != NULL_BLOCK ==>
                && key == Some(MakeKey(requestHashes[numTokens / hashBlockSize - 1], group))
                && st == CachePartial(old(st), b, key.value, numTokens)
                && (key.value in KeysOf(old(st), b) ==> eventQueue == old(eventQueue))
      // A new entry is announced last, behind the entry at the boundary before.
      ensures b != NULL_BLOCK && eventsOn && key.value !in KeysOf(old(st), b) ==>
                && eventQueue != []
                && OfBoundary(eventQueue[|eventQueue| - 1], requestHashes, numTokens, hashBlockSize, group)
    {
      OpenBlock(b);
      if block.isNull {
        return None;
      }
      var k, tokens, event := PartialEntry(requestHashes, numTokens, hashBlockSize, group);
      CachePartialSound(st, b, k, numTokens);
      SoundHasSoundKeys(st);
      AttachPartial(block, b, k, tokens, event);
      return Some(k);
    }

    // The announcement of the hash at a boundary, behind the hash at the boundary before.
    static ghost predicate OfBoundary(event: Event, hashes: seq<Bytes>, numTokens: nat, h: nat, group: nat)
      requires h > 0 && 0 < numTokens / h <= |hashes|
    {
      var m := numTokens / h;
      && event.BlockStored? && event.group == group && event.hashes == [hashes[m - 1]]
      && event.startToken == (m - 1) * h && event.endToken == numTokens && event.blockSize == h
      && event.parent == if m == 1 then None else Some(hashes[m - 2])
    }

    // The key of a partial entry, the prefix length it stands for, and its announcement.
    static method PartialEntry(requestHashes: seq<Bytes>, numTokens: nat, h: nat, group: nat)
      returns (key: Key, tokens: nat, event: Event)
      requires h > 0 && numTokens % h == 0 && 0 < numTokens / h <= |requestHashes| && group < GROUP_LIMIT
      ensures key == MakeKey(requestHashes[numTokens / h - 1], group) && tokens == numTokens && |key| >= 4
      ensures OfBoundary(event, requestHashes, numTokens, h, group)
    {
      var n := numTokens / h;
      assert n * h == numTokens;
      assert (n - 1) * h == numTokens - h;
      var parent := if n > 1 then Some(requestHashes[n - 2]) else None;
      key, tokens := MakeKey(requestHashes[n - 1], group), n * h;
      event := BlockStored([requestHashes[n - 1]], parent, (n - 1) * h, numTokens, numTokens - (n - 1) * h, group);
    }

    method AttachPartial(block: KVCacheBlock, ghost b: nat, key: Key, tokens: nat, event: Event)
      requires Keys() && SoundKeys(st) && Balance(multiset{}, multiset{}) && 0 < b < |blocks| && block == blocks[b]
      requires |key| >= 4
      requires event.BlockStored? && event.group < GROUP_LIMIT && |event.hashes| == 1
      requires MakeKey(event.hashes[0], event.group) == key
      modifies this`st, this`secondary, index, this`eventQueue, this`log, this`surplus
      modifies block`blockHash, block`blockHashNumTokens, block`cacheIdleSince, block`protectedUntil
      ensures Keys() && st == CachePartial(old(st), b, key, tokens) && Balance(multiset{}, multiset{})
      ensures st.free == old(st).free && surplus == old(surplus) && drained == old(drained)
      ensures key in KeysOf(old(st), b) ==> eventQueue == old(eventQueue)
      ensures eventsOn && key !in KeysOf(old(st), b) ==>
                eventQueue != [] && eventQueue[|eventQueue| - 1] == event
    {
      ghost var was, gives, s1 := CachePartialPlan(st, b, key, tokens);
      var already := HasKey(block, b, key);
      if !already && block.blockHash.Some? && block.blockHashNumTokens.Some?
          && block.blockHashNumTokens.value < tokens {
        DropKeys(block, b, multiset{});
      }
      InsertPartial(block, b, key, tokens, event, already);
    }

    // The insertion has nothing to do when the block has the key, and nothing is announced.
    method InsertPartial(block: KVCacheBlock, ghost b: nat, key: Key, tokens: nat, event: Event, already: bool)
      requires Keys() && SoundKeys(st) && Balance(multiset{}, multiset{}) && 0 < b < |blocks| && block == blocks[b]
      requires |key| >= 4
      requires event.BlockStored? && event.group < GROUP_LIMIT && |event.hashes| == 1
      requires MakeKey(event.hashes[0], event.group) == key
      requires already <==> key in KeysOf(st, b)
      modifies this`st, this`secondary, index, this`eventQueue, this`log, this`surplus
      modifies block`blockHash, block`blockHashNumTokens
      ensures Keys() && st == InsertHash(old(st), b, key, tokens) && Balance(multiset{}, multiset{})
      ensures surplus == old(surplus) && drained == old(drained)
      ensures eventQueue == old(eventQueue) + if eventsOn && !already then [event] else []
    {
      ghost var before := surplus;
      AttachOwed(block, b, key, tokens, multiset{});
      if already {
        surplus := before;
      } else {
        AnnouncedAlone(event.hashes, event.group, key);
        EmitStored(event, multiset{key});
      }
    }

    method HasKey(block: KVCacheBlock, ghost b: nat, key: Key) returns (has: bool)
      requires Keys() && SoundKeys(st) && b < |blocks| && block == blocks[b]
      ensures has == (st.blocks[b].hash == Some(key) || b in IndexOf(st, key))
      ensures block.Meta() == st.blocks[b]
    {
      OpenKeySync();
      OpenBlock(b);
      if block.blockHash == Some(key) {
        return true;
      }
      has := index.Contain(key, block.blockId);
    }

    // ---- Moving keys ----

    // Re-points every entry of src to dst; entries stay live and no event is emitted.
    method MoveBlockHashes(srcBlock: KVCacheBlock, dstBlock: KVCacheBlock, ghost src: nat, ghost dst: nat)
      requires Valid() && src < |blocks| && dst < |blocks| && srcBlock == blocks[src] && dstBlock == blocks[dst]
      requires dst != NULL_BLOCK && KeysOf(st, dst) == {}
      modifies this`st, this`secondary, index, srcBlock, dstBlock
      ensures Valid() && st == MoveHashes(old(st), src, dst)
    {
      MoveSound(st, src, dst);
      SoundHasSoundKeys(st);
      MoveKeys(srcBlock, dstBlock, src, dst);
    }

    method MoveKeys(srcBlock: KVCacheBlock, dstBlock: KVCacheBlock, ghost src: nat, ghost dst: nat)
      requires Keys() && SoundKeys(st) && Sound(st) && src < |blocks| && dst < |blocks| && srcBlock == blocks[src]
      requires dstBlock == blocks[dst]
      requires KeysOf(st, dst) == {}
      modifies this`st, this`secondary, index
      modifies srcBlock`blockHash, srcBlock`blockHashNumTokens, srcBlock`cacheIdleSince, srcBlock`protectedUntil
      modifies dstBlock`blockHash, dstBlock`blockHashNumTokens
      ensures Keys() && st == MoveHashes(old(st), src, dst)
    {
      ghost var s := st;
      OpenBlock(src);
      LongKeysOf(src);
      SoundBlock(s, src);
      var numTokens := srcBlock.blockHashNumTokens;
      var keys := RemoveCachedBlockHashes(srcBlock, src);
      if |keys| == 0 {
        assert Elems(keys) == {};
        NothingToMove(s, src, dst);
        return;
      }
      MoveStart(s, src, dst, keys);
      MoveIsInsertAll(s, src, dst, keys);
      InsertEach(dstBlock, dst, keys, numTokens);
    }

    // Only the primary key brings a token count.
    method InsertEach(block: KVCacheBlock, ghost b: nat, keys: seq<Key>, tokens: Option<nat>)
      requires Keys() && SoundKeys(st) && b < |blocks| && block == blocks[b] && tokens.Some?
      requires forall k :: k in keys ==> |k| >= 4
      modifies this`st, this`secondary, index, block`blockHash, block`blockHashNumTokens
      ensures Keys() && st == InsertAll(old(st), b, keys, tokens.value)
    {
      ghost var s := st;
      for i := 0 to |keys|
        invariant Keys() && st == InsertAll(s, b, keys[..i], tokens.value)
      {
        InsertAllSound(s, b, keys[..i], tokens.value);
        InsertAllOneMore(s, b, keys, tokens.value, i);
        InsertBlockHash(keys[i], block, b, tokens);
      }
      assert keys[..|keys|] == keys;
    }
  }

  // ---- Picking blocks by id ----

  ghost predicate Numbered(blocks: seq<KVCacheBlock>) {
    forall i {:trigger blocks[i]} :: 0 <= i < |blocks| ==> blocks[i].blockId == i
  }

  lemma {:induction false} PickSelect(blocks: seq<KVCacheBlock>, ids: seq<nat>, hits: set<KVCacheBlock>, keep: set<nat>)
    requires Below(ids, |blocks|)
    requires forall i :: i in ids ==> i < |blocks| && (blocks[i] in hits <==> i in keep)
    ensures Below(Keep(ids, keep), |blocks|) && Below(Drop(ids, keep), |blocks|)
    ensures Keep(Pick(blocks, ids), hits) == Pick(blocks, Keep(ids, keep))
    ensures Drop(Pick(blocks, ids), hits) == Pick(blocks, Drop(ids, keep))
  {
    if ids != [] {
      var all, b: nat, rest := Pick(blocks, ids), ids[0], ids[1..];
      PickSelect(blocks, rest, hits, keep);
      assert all[0] == blocks[b] && all[1..] == Pick(blocks, rest);
      PickFront(blocks, b, Keep(rest, keep));
      PickFront(blocks, b, Drop(rest, keep));
      assert b in ids;
    }
  }

  lemma PickFront(blocks: seq<KVCacheBlock>, b: nat, ids: seq<nat>)
    requires b < |blocks| && Below(ids, |blocks|)
    ensures Below([b] + ids, |blocks|) && Pick(blocks, [b] + ids) == [blocks[b]] + Pick(blocks, ids)
    ensures [] + ids == ids && [] + Pick(blocks, ids) == Pick(blocks, ids)
  {
  }

  lemma PickDistinct(blocks: seq<KVCacheBlock>, ids: seq<nat>)
    requires Numbered(blocks) && Below(ids, |blocks|) && Distinct(ids)
    ensures Distinct(Pick(blocks, ids))
  {
    var p := Pick(blocks, ids);
    forall i, j | 0 <= i < j < |p|
      ensures p[i] != p[j]
    {
      assert blocks[ids[i]].blockId == ids[i] && blocks[ids[j]].blockId == ids[j];
    }
  }

  lemma PickSnoc(blocks: seq<KVCacheBlock>, a: seq<nat>, b: nat)
    requires Below(a, |blocks|) && b < |blocks|
    ensures Below(a + [b], |blocks|) && Pick(blocks, a + [b]) == Pick(blocks, a) + [blocks[b]]
  {
  }

  lemma PickConcat(blocks: seq<KVCacheBlock>, a: seq<nat>, b: seq<nat>)
    requires Below(a, |blocks|) && Below(b, |blocks|)
    ensures Below(a + b, |blocks|) && Pick(blocks, a + b) == Pick(blocks, a) + Pick(blocks, b)
  {
  }

  lemma PickMembers(blocks: seq<KVCacheBlock>, ids: seq<nat>)
    requires Numbered(blocks) && Below(ids, |blocks|)
    ensures forall i: nat :: i < |blocks| ==> (blocks[i] in Pick(blocks, ids) <==> i in ids)
    ensures forall b :: b in Pick(blocks, ids) ==> b in blocks
  {
    forall i: nat | i < |blocks|
      ensures blocks[i] in Pick(blocks, ids) <==> i in ids
    {
      if i in ids {
        var j :| 0 <= j < |ids| && ids[j] == i;
        assert Pick(blocks, ids)[j] == blocks[i];
      }
      if blocks[i] in Pick(blocks, ids) {
        var j :| 0 <= j < |ids| && Pick(blocks, ids)[j] == blocks[i];
        assert blocks[ids[j]].blockId == blocks[i].blockId;
      }
    }
  }
}
