// Idle expiry and the least-recently-used order of the free queue.
module PoolTiming {
  import opened Wrappers
  import opened Seqs
  import opened BlockKeys
  import opened PoolModel
  import opened PoolInvariants

  ghost predicate Cached(blocks: seq<BlockMeta>, b: nat) {
    b < |blocks| && blocks[b].hash.Some?
  }

  // The time from which the block may expire.
  function DueTime(timeout: int, blk: BlockMeta): int
    requires blk.idleSince.Some?
  {
    if blk.idleSince.value + timeout < blk.protectedUntil then blk.protectedUntil else blk.idleSince.value + timeout
  }

  // A free cached block has been idle since a known time, and the cached bound is not late.
  ghost predicate Timed(timeout: int, s: State, b: nat) {
    Cached(s.blocks, b) ==>
      && s.blocks[b].idleSince.Some?
      && s.blocks[b].idleSince.value <= s.clock
      && s.nextExpiry.Some?
      && s.nextExpiry.value <= DueTime(timeout, s.blocks[b])
  }

  // Along the queue, the idle times of cached blocks do not decrease.
  ghost predicate Ascending(queue: seq<nat>, blocks: seq<BlockMeta>) {
    forall i, j :: 0 <= i < j < |queue| ==> NotLater(blocks, queue[i], queue[j])
  }

  ghost predicate NotLater(blocks: seq<BlockMeta>, b: nat, c: nat) {
    Cached(blocks, b) && Cached(blocks, c) && blocks[b].idleSince.Some? && blocks[c].idleSince.Some? ==>
      blocks[b].idleSince.value <= blocks[c].idleSince.value
  }

  ghost predicate TimingOk(cfg: Config, s: State) {
    cfg.timeout.Some? ==>
      && (forall b :: b in s.free ==> Timed(cfg.timeout.value, s, b))
      && Ascending(s.free, s.blocks)
  }

  lemma {:induction false} DropAscending(queue: seq<nat>, blocks: seq<BlockMeta>, gone: set<nat>)
    requires Ascending(queue, blocks)
    ensures Ascending(Drop(queue, gone), blocks)
  {
    if queue != [] {
      DropAscending(queue[1..], blocks, gone);
      DropMembers(queue[1..], gone);
      var rest := Drop(queue[1..], gone);
      forall x | x in rest
        ensures NotLater(blocks, queue[0], x)
      {
        var j :| 0 <= j < |queue[1..]| && queue[1..][j] == x;
        assert queue[j + 1] == x;
      }
    }
  }

  // Blocks may leave the queue, lose their key, or have their deadline raised.
  lemma TimingShrinks(cfg: Config, s: State, s': State, gone: set<nat>)
    requires TimingOk(cfg, s)
    requires s'.free == Drop(s.free, gone)
    requires forall b :: b in s'.free && Cached(s'.blocks, b) ==>
               && Cached(s.blocks, b)
               && s'.blocks[b].idleSince == s.blocks[b].idleSince
               && s'.blocks[b].protectedUntil >= s.blocks[b].protectedUntil
    requires s'.nextExpiry == s.nextExpiry && s'.clock >= s.clock
    ensures TimingOk(cfg, s')
  {
    if cfg.timeout.Some? {
      DropAscending(s.free, s.blocks, gone);
      DropMembers(s.free, gone);
      forall b | b in s'.free
        ensures Timed(cfg.timeout.value, s', b)
      {
        assert Timed(cfg.timeout.value, s, b);
      }
      forall i, j | 0 <= i < j < |s'.free|
        ensures NotLater(s'.blocks, s'.free[i], s'.free[j])
      {
        assert NotLater(s.blocks, s'.free[i], s'.free[j]);
        assert s'.free[i] in s'.free && s'.free[j] in s'.free;
      }
    }
  }

  lemma TimingStays(cfg: Config, s: State, s': State)
    requires TimingOk(cfg, s)
    requires s'.free == s.free
    requires forall b :: b in s'.free && Cached(s'.blocks, b) ==>
               && Cached(s.blocks, b)
               && s'.blocks[b].idleSince == s.blocks[b].idleSince
               && s'.blocks[b].protectedUntil >= s.blocks[b].protectedUntil
    requires s'.nextExpiry == s.nextExpiry && s'.clock >= s.clock
    ensures TimingOk(cfg, s')
  {
    DropNothing(s.free, {});
    TimingShrinks(cfg, s, s', {});
  }

  lemma RemoveAllTiming(cfg: Config, s: State, gone: set<nat>)
    requires TimingOk(cfg, s)
    ensures TimingOk(cfg, RemoveAll(s, gone))
  {
    TimingStays(cfg, s, RemoveAll(s, gone));
  }

  lemma GetNewTiming(cfg: Config, s: State, n: nat, now: int)
    requires Inv(s) && TimingOk(cfg, s) && s.clock <= now
    ensures TimingOk(cfg, GetNew(cfg, s, n, now))
  {
    var s' := GetNew(cfg, s, n, now);
    if n <= |s.free| {
      var v := Elems(Victims(s, n, now));
      DropMembers(s.free, v);
      assert s'.free == Drop(s.free, v);
      forall b | b in s'.free && b < |s.blocks|
        ensures s'.blocks[b] == s.blocks[b]
      {
        assert b !in v;
      }
      TimingShrinks(cfg, s, s', v);
    } else {
      TimingStays(cfg, s, s');
    }
  }

  lemma TouchTiming(cfg: Config, s: State, ids: seq<nat>)
    requires TimingOk(cfg, s)
    ensures TimingOk(cfg, Touch(s, ids))
  {
    DropMembers(s.free, Elems(ids));
    TimingShrinks(cfg, s, Touch(s, ids), Elems(ids));
  }

  lemma ProtectTiming(cfg: Config, s: State, ids: seq<nat>, until: int)
    requires TimingOk(cfg, s)
    ensures TimingOk(cfg, Protect(s, ids, until))
  {
    TimingStays(cfg, s, Protect(s, ids, until));
  }

  lemma ResetTiming(cfg: Config, s: State)
    requires TimingOk(cfg, s)
    ensures TimingOk(cfg, ResetCache(s))
  {
    var s' := ResetCache(s);
    if s' != s {
      assert forall b :: !Cached(s'.blocks, b);
    }
  }

  // Keys attached to a held block leave the free blocks as they are.
  lemma CacheItemTiming(cfg: Config, s: State, it: Item)
    requires Inv(s) && TimingOk(cfg, s) && ItemReady(s, it)
    requires it.block !in s.free
    ensures TimingOk(cfg, CacheItem(s, it))
    ensures CacheItem(s, it).free == s.free
  {
    TimingStays(cfg, s, CacheItem(s, it));
  }

  lemma {:induction false} CacheItemsTiming(cfg: Config, s: State, items: seq<Item>)
    requires Inv(s) && TimingOk(cfg, s) && ItemsReady(s, items)
    requires forall i :: 0 <= i < |items| ==> items[i].block != NULL_BLOCK && items[i].block !in s.free
    ensures TimingOk(cfg, CacheItems(s, items))
    ensures CacheItems(s, items).free == s.free
  {
    if items != [] {
      var front := items[..|items| - 1];
      CacheItemsTiming(cfg, s, front);
      CacheItemsInv(s, front);
      CacheItemTiming(cfg, CacheItems(s, front), items[|items| - 1]);
    }
  }

  lemma CachePartialTiming(cfg: Config, s: State, b: nat, key: Key, tokens: nat)
    requires TimingOk(cfg, s) && b < |s.blocks| && b !in s.free
    ensures TimingOk(cfg, CachePartial(s, b, key, tokens))
  {
    TimingStays(cfg, s, CachePartial(s, b, key, tokens));
  }

  lemma MoveHashesTiming(cfg: Config, s: State, src: nat, dst: nat)
    requires TimingOk(cfg, s) && src < |s.blocks| && dst < |s.blocks| && dst !in s.free
    ensures TimingOk(cfg, MoveHashes(s, src, dst))
  {
    TimingStays(cfg, s, MoveHashes(s, src, dst));
  }

  // Uncached blocks in front and later ones behind leave the order intact.
  lemma ConcatAscending(a: seq<nat>, q: seq<nat>, z: seq<nat>, blocks: seq<BlockMeta>)
    requires forall b :: b in a ==> !Cached(blocks, b)
    requires Ascending(q, blocks)
    requires forall b, c :: b in q + z && c in z ==> NotLater(blocks, b, c)
    ensures Ascending(a + q + z, blocks)
  {
    var all := a + q + z;
    forall i, j | 0 <= i < j < |all|
      ensures NotLater(blocks, all[i], all[j])
    {
      if i < |a| {
        assert all[i] in a;
      } else if j < |a| + |q| {
        assert NotLater(blocks, q[i - |a|], q[j - |a|]);
      } else {
        assert all[i] == (q + z)[i - |a|] && all[i] in q + z;
        assert all[j] == z[j - |a| - |q|] && all[j] in z;
      }
    }
  }

  lemma AscendingSame(q: seq<nat>, blocks: seq<BlockMeta>, blocks': seq<BlockMeta>)
    requires Ascending(q, blocks)
    requires forall b :: b in q && Cached(blocks', b) ==>
               Cached(blocks, b) && blocks'[b].idleSince == blocks[b].idleSince
    ensures Ascending(q, blocks')
  {
    forall i, j | 0 <= i < j < |q|
      ensures NotLater(blocks', q[i], q[j])
    {
      assert NotLater(blocks, q[i], q[j]) && q[i] in q && q[j] in q;
    }
  }

  // What a release does to one block of the new queue.
  lemma FreedBlock(cfg: Config, s: State, ids: seq<nat>, now: int, b: nat)
    requires cfg.Ok() && cfg.timeout.Some? && Inv(s) && InRange(s, ids) && b < |s.blocks|
    ensures var s', released := Free(cfg, s, ids, now), Released(s, ids);
      && |s'.blocks| == |s.blocks| && s'.clock == now && (b in s'.free ==> b in s.free || b in released)
      && (b in s.free ==> s'.blocks[b] == s.blocks[b].(refCnt := s'.blocks[b].refCnt))
      && (b in Drop(released, KeptWarm(cfg, s)) ==> !Cached(s'.blocks, b))
      && (b in Keep(released, KeptWarm(cfg, s)) ==>
            s'.blocks[b].idleSince == Some(now) && s'.nextExpiry.Some?
                && s'.nextExpiry.value <= now + cfg.timeout.value)
      && (s'.nextExpiry == s.nextExpiry
          || (s'.nextExpiry.Some? && (s.nextExpiry.Some? ==> s'.nextExpiry.value <= s.nextExpiry.value)))
  {
    var released, warmth := Released(s, ids), KeptWarm(cfg, s);
    ReleasedMembers(s, ids);
    KeepMembers(released, warmth);
    DropMembers(released, warmth);
  }

  // A block in the queue after a release, wherever it came from.
  lemma FreedTimed(cfg: Config, s: State, ids: seq<nat>, now: int, b: nat)
    requires cfg.Ok() && cfg.timeout.Some? && Inv(s) && TimingOk(cfg, s) && InRange(s, ids) && s.clock <= now
    requires b in Free(cfg, s, ids, now).free
    ensures var s', released, warmth := Free(cfg, s, ids, now), Released(s, ids), KeptWarm(cfg, s);
      && Timed(cfg.timeout.value, s', b) && b < |s.blocks| == |s'.blocks|
      && (b in s.free ==> s'.blocks[b].idleSince == s.blocks[b].idleSince && Timed(cfg.timeout.value, s, b))
      && (b in Drop(released, warmth) ==> !Cached(s'.blocks, b))
      && (b in Keep(released, warmth) ==> s'.blocks[b].idleSince == Some(now))
  {
    var s', released, warmth := Free(cfg, s, ids, now), Released(s, ids), KeptWarm(cfg, s);
    var warm, cold := Keep(released, warmth), Drop(released, warmth);
    FreedInRange(cfg, s, ids, now, b);
    FreedBlock(cfg, s, ids, now, b);
    if b in s.free {
      TimedLater(cfg.timeout.value, s, s', b);
    } else if b in warm {
      TimedNow(cfg.timeout.value, s', b);
    }
  }

  lemma FreedInRange(cfg: Config, s: State, ids: seq<nat>, now: int, b: nat)
    requires Inv(s) && InRange(s, ids) && b in Free(cfg, s, ids, now).free
    ensures b < |s.blocks|
  {
    ReleasedMembers(s, ids);
    KeepMembers(Released(s, ids), KeptWarm(cfg, s));
    DropMembers(Released(s, ids), KeptWarm(cfg, s));
  }

  lemma TimedLater(timeout: int, s: State, s': State, b: nat)
    requires Timed(timeout, s, b) && b < |s.blocks| == |s'.blocks| && s.clock <= s'.clock
    requires s'.blocks[b] == s.blocks[b].(refCnt := s'.blocks[b].refCnt)
    requires s.nextExpiry.Some? ==> s'.nextExpiry.Some? && s'.nextExpiry.value <= s.nextExpiry.value
    ensures Timed(timeout, s', b)
  {
  }

  lemma TimedNow(timeout: int, s: State, b: nat)
    requires b < |s.blocks| && s.blocks[b].idleSince == Some(s.clock)
    requires s.nextExpiry.Some? && s.nextExpiry.value <= s.clock + timeout
    ensures Timed(timeout, s, b)
  {
  }

  lemma FreeTiming(cfg: Config, s: State, ids: seq<nat>, now: int)
    requires cfg.Ok() && Inv(s) && TimingOk(cfg, s) && InRange(s, ids) && s.clock <= now
    ensures TimingOk(cfg, Free(cfg, s, ids, now))
  {
    if cfg.timeout.Some? {
      var s', released, warmth := Free(cfg, s, ids, now), Released(s, ids), KeptWarm(cfg, s);
      var warm, cold := Keep(released, warmth), Drop(released, warmth);
      FreeQueueDistinct(cfg, s, ids, now);
      assert s'.free == cold + s.free + warm;
      forall b | b in s'.free
        ensures Timed(cfg.timeout.value, s', b)
        ensures b in s.free ==> s'.blocks[b].idleSince == s.blocks[b].idleSince && Timed(cfg.timeout.value, s, b)
        ensures b in cold ==> !Cached(s'.blocks, b)
        ensures b in warm ==> s'.blocks[b].idleSince == Some(now)
      {
        FreedTimed(cfg, s, ids, now, b);
      }
      AscendingSame(s.free, s.blocks, s'.blocks);
      ConcatAscending(cold, s.free, warm, s'.blocks);
    }
  }

  // ---- Expiry ----

  // The bound computed by a scan is never late, and is present unless nothing is pending.
  lemma {:induction false} NextExpiryBound(s: State, timeout: int, now: int, ids: seq<nat>)
    ensures forall b ::
              b in ids && Cached(s.blocks, b) && s.blocks[b].idleSince.Some? && !Due(timeout, s.blocks[b], now) ==>
              && NextExpiry(s, timeout, now, ids).Some?
              && NextExpiry(s, timeout, now, ids).value <= DueTime(timeout, s.blocks[b])
  {
    if ids != [] {
      var front := ids[..|ids| - 1];
      NextExpiryBound(s, timeout, now, front);
      assert ids == front + [ids[|ids| - 1]];
      forall b | b in ids
        ensures b in front || b == ids[|ids| - 1]
      {
      }
    }
  }

  // Every cached block of the queue has an idle time.
  ghost predicate IdleKnown(s: State) {
    forall i :: 0 <= i < |s.free| && s.free[i] < |s.blocks| && s.blocks[s.free[i]].hash.Some? ==>
      s.blocks[s.free[i]].idleSince.Some?
  }

  // So the assertion inside the scan never fires.
  lemma ScanAssertionHolds(cfg: Config, s: State)
    requires TimingOk(cfg, s) && cfg.timeout.Some?
    ensures IdleKnown(s)
  {
    forall i | 0 <= i < |s.free| && s.free[i] < |s.blocks| && s.blocks[s.free[i]].hash.Some?
      ensures s.blocks[s.free[i]].idleSince.Some?
    {
      assert s.free[i] in s.free;
      assert Timed(cfg.timeout.value, s, s.free[i]);
    }
  }

  // Sound and complete despite the early exits: a free cached block keeps its keys exactly
  // when it is not due, every other block keeps its keys, and the result says so for all.
  lemma ExpireExact(cfg: Config, s: State, now: int)
    requires Inv(s) && TimingOk(cfg, s) && cfg.timeout.Some? && s.clock <= now
    ensures var s' := Expire(cfg, s, now);
      forall b: nat :: b < |s.blocks| ==>
        KeysOf(s', b) ==
          if b in s.free && Cached(s.blocks, b) && s.blocks[b].idleSince.value + cfg.timeout.value <= now
             && s.blocks[b].protectedUntil <= now
          then {} else KeysOf(s, b)
  {
    var s' := Expire(cfg, s, now);
    forall b: nat | b < |s.blocks|
      ensures b in s.free && Cached(s.blocks, b) ==> s.blocks[b].idleSince.Some?
      ensures ScanNeeded(cfg, s, now) ==>
                KeysOf(s', b) == if b in DueFree(s, cfg.timeout.value, now) then {} else KeysOf(s, b)
      ensures !ScanNeeded(cfg, s, now) ==> KeysOf(s', b) == KeysOf(s, b) && b !in DueFree(s, cfg.timeout.value, now)
    {
      if b in s.free {
        assert Timed(cfg.timeout.value, s, b);
      }
      assert BlockOk(s, b);
    }
  }

  lemma ExpireTiming(cfg: Config, s: State, now: int)
    requires Inv(s) && TimingOk(cfg, s) && s.clock <= now
    ensures TimingOk(cfg, Expire(cfg, s, now))
  {
    var s' := Expire(cfg, s, now);
    if ScanNeeded(cfg, s, now) {
      var due := DueFree(s, cfg.timeout.value, now);
      var gone, rest := Keep(s.free, due), Drop(s.free, due);
      KeepMembers(s.free, due);
      DropMembers(s.free, due);
      assert s'.free == gone + rest + [];
      assert forall b :: b in gone ==> !Cached(s'.blocks, b);
      forall b | b in s'.free
        ensures b in rest ==> s'.blocks[b] == s.blocks[b]
        ensures Timed(cfg.timeout.value, s', b)
      {
        if b in rest {
          assert Timed(cfg.timeout.value, s, b);
          NextExpiryBound(s, cfg.timeout.value, now, s.free);
        }
      }
      DropAscending(s.free, s.blocks, due);
      AscendingSame(rest, s.blocks, s'.blocks);
      ConcatAscending(gone, rest, [], s'.blocks);
    } else {
      TimingStays(cfg, s, s');
    }
  }

  // Among unprotected cached blocks the longest idle one is evicted first.
  lemma LongestIdleFirst(cfg: Config, s: State, n: nat, now: int, b: nat, c: nat)
    requires Inv(s) && TimingOk(cfg, s) && cfg.timeout.Some? && n <= |s.free|
    requires b in s.free && c in s.free && Cached(s.blocks, b) && Cached(s.blocks, c)
    requires s.blocks[b].protectedUntil <= now && s.blocks[c].protectedUntil <= now
    requires b in Victims(s, n, now) && c !in Victims(s, n, now)
    ensures s.blocks[b].idleSince.Some? && s.blocks[c].idleSince.Some?
    ensures s.blocks[b].idleSince.value <= s.blocks[c].idleSince.value
  {
    assert Timed(cfg.timeout.value, s, b) && Timed(cfg.timeout.value, s, c);
    var p := ProtectedFree(s, now);
    var order, u, v := VictimOrder(s, now), Drop(s.free, p), Victims(s, n, now);
    VictimsArePrefix(s, n, now);
    DropMembers(s.free, p);
    KeepMembers(s.free, p);
    DropAscending(s.free, s.blocks, p);
    var i :| 0 <= i < |v| && v[i] == b;
    var j :| 0 <= j < |u| && u[j] == c;
    assert order[j] == c;
    assert j >= n;
    assert order[i] == b && u[i] == b;
    assert NotLater(s.blocks, u[i], u[j]);
  }
}
