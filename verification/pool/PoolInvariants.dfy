// What every operation of the pool keeps.
module PoolInvariants {
  import opened Wrappers
  import opened Seqs
  import opened BlockKeys
  import opened PoolModel

  // A block other than the null block is in the free queue exactly once when nobody holds
  // it, and not at all otherwise; the null block is never queued.
  ghost predicate Owned(s: State) {
    && |s.blocks| > 0
    && InRange(s, s.free)
    && Distinct(s.free)
    && NULL_BLOCK !in s.free
    && forall b: nat {:trigger b in s.free} {:trigger s.blocks[b]} ::
         0 < b < |s.blocks| ==> s.blocks[b].refCnt >= 0 && (b in s.free <==> s.blocks[b].refCnt == 0)
  }

  ghost predicate BlockOk(s: State, b: nat)
    requires b < |s.blocks|
  {
    var blk := s.blocks[b];
    && (blk.hash.Some? <==> blk.numTokens.Some?)
    && (b in s.secondary ==> blk.hash.Some? && s.secondary[b] != {} && blk.hash.value !in s.secondary[b])
  }

  // A block is found under a key exactly when the key is its primary hash or one of its
  // secondary hashes; no empty entry is kept.
  ghost predicate Coherent(s: State) {
    && (forall b: nat :: b < |s.blocks| ==> BlockOk(s, b))
    && (forall b: nat :: b in s.secondary ==> b < |s.blocks|)
    && (forall k :: k in s.index ==> s.index[k] != [] && Distinct(s.index[k]) && InRange(s, s.index[k]))
    && (forall b: nat, k :: b < |s.blocks| ==> (b in IndexOf(s, k) <==> k in KeysOf(s, b)))
  }

  ghost predicate NullClean(s: State) {
    && |s.blocks| > 0
    && s.blocks[NULL_BLOCK].hash.None?
  }

  ghost predicate Inv(s: State) {
    Owned(s) && Coherent(s) && NullClean(s)
  }

  lemma InitInv(n: nat)
    requires n > 0
    ensures Inv(Init(n))
  {
    var s := Init(n);
    assert forall i :: 0 <= i < |s.free| ==> s.free[i] == i + 1;
    forall b: nat | 0 < b < n
      ensures b in s.free
    {
      assert s.free[b - 1] == b;
    }
  }

  // ---- Removal ----

  lemma RemoveAllKeys(s: State, gone: set<nat>)
    requires Coherent(s)
    ensures Coherent(RemoveAll(s, gone))
    ensures forall b: nat :: b < |s.blocks| ==>
              KeysOf(RemoveAll(s, gone), b) == if b in gone then {} else KeysOf(s, b)
    ensures forall k :: IndexOf(RemoveAll(s, gone), k) == Drop(IndexOf(s, k), gone)
  {
    var s' := RemoveAll(s, gone);
    forall k
      ensures IndexOf(s', k) == Drop(IndexOf(s, k), gone)
      ensures forall b :: b in IndexOf(s', k) <==> b in IndexOf(s, k) && b !in gone
      ensures Distinct(IndexOf(s', k))
    {
      DropMembers(IndexOf(s, k), gone);
      DropDistinct(IndexOf(s, k), gone);
    }
    forall b: nat | b < |s.blocks|
      ensures BlockOk(s', b) && KeysOf(s', b) == if b in gone then {} else KeysOf(s, b)
    {
      assert BlockOk(s, b);
    }
    forall k | k in s'.index
      ensures s'.index[k] != [] && Distinct(s'.index[k]) && InRange(s', s'.index[k])
    {
      assert s'.index[k] == IndexOf(s', k);
      forall i | 0 <= i < |s'.index[k]|
        ensures s'.index[k][i] < |s.blocks|
      {
        assert s'.index[k][i] in IndexOf(s, k);
      }
    }
    forall b: nat, k | b < |s.blocks|
      ensures b in IndexOf(s', k) <==> k in KeysOf(s', b)
    {
      assert b in IndexOf(s, k) <==> k in KeysOf(s, b);
    }
  }

  lemma RemoveAllInv(s: State, gone: set<nat>)
    requires Inv(s)
    ensures Inv(RemoveAll(s, gone))
  {
    RemoveAllKeys(s, gone);
  }

  lemma RemoveNothing(s: State)
    requires Coherent(s)
    ensures RemoveAll(s, {}) == s
  {
    var s' := RemoveAll(s, {});
    forall k | k in s.index
      ensures Drop(s.index[k], {}) == s.index[k]
    {
      DropNothing(s.index[k], {});
    }
    assert s'.blocks == s.blocks;
    assert s'.index == s.index;
    assert s'.secondary == s.secondary;
  }

  // Removing block after block is removing them all.
  lemma RemoveAllCompose(s: State, g1: set<nat>, g2: set<nat>)
    ensures RemoveAll(RemoveAll(s, g1), g2) == RemoveAll(s, g1 + g2)
  {
    var s1 := RemoveAll(s, g1);
    var s2, s' := RemoveAll(s1, g2), RemoveAll(s, g1 + g2);
    assert s2.blocks == s'.blocks;
    forall k | k in s.index
      ensures k in s2.index <==> k in s'.index
      ensures k in s2.index ==> s2.index[k] == s'.index[k]
    {
      DropDrop(s.index[k], g1, g2);
      if Drop(s.index[k], g1) == [] {
        assert Drop(Drop(s.index[k], g1), g2) == [];
      }
    }
    assert s2.index == s'.index;
    assert s2.secondary == s'.secondary;
  }

  // ---- Attaching ----

  lemma InsertHashBlock(s: State, b: nat, key: Key, tokens: nat, c: nat)
    requires Coherent(s) && b < |s.blocks| && c < |s.blocks|
    ensures BlockOk(InsertHash(s, b, key, tokens), c)
    ensures KeysOf(InsertHash(s, b, key, tokens), c) == KeysOf(s, c) + if c == b then {key} else {}
  {
    assert b in IndexOf(s, key) <==> key in KeysOf(s, b);
    assert BlockOk(s, c);
  }

  lemma InsertHashIndex(s: State, b: nat, key: Key, tokens: nat, k: Key)
    requires Coherent(s) && b < |s.blocks|
    ensures var s' := InsertHash(s, b, key, tokens);
      && IndexOf(s', k) == IndexOf(s, k) + (if k == key && key !in KeysOf(s, b) then [b] else [])
      && Distinct(IndexOf(s', k)) && InRange(s', IndexOf(s', k)) && (k in s'.index ==> s'.index[k] != [])
  {
    assert b in IndexOf(s, key) <==> key in KeysOf(s, b);
    assert IndexOf(s, k) + [] == IndexOf(s, k);
  }

  lemma InsertHashKeys(s: State, b: nat, key: Key, tokens: nat)
    requires Coherent(s) && b < |s.blocks|
    ensures Coherent(InsertHash(s, b, key, tokens))
    ensures forall c: nat :: c < |s.blocks| ==>
              KeysOf(InsertHash(s, b, key, tokens), c) == KeysOf(s, c) + if c == b then {key} else {}
    ensures forall k :: IndexOf(InsertHash(s, b, key, tokens), k) ==
              IndexOf(s, k) + if k == key && key !in KeysOf(s, b) then [b] else []
  {
    var s' := InsertHash(s, b, key, tokens);
    forall c: nat, k | c < |s.blocks|
      ensures c in IndexOf(s', k) <==> k in KeysOf(s', c)
    {
      assert c in IndexOf(s, k) <==> k in KeysOf(s, c);
      InsertHashBlock(s, b, key, tokens, c);
      InsertHashIndex(s, b, key, tokens, k);
    }
    forall c: nat | c < |s.blocks|
      ensures BlockOk(s', c) && KeysOf(s', c) == KeysOf(s, c) + if c == b then {key} else {}
    {
      InsertHashBlock(s, b, key, tokens, c);
    }
    forall k
      ensures IndexOf(s', k) == IndexOf(s, k) + if k == key && key !in KeysOf(s, b) then [b] else []
      ensures k in s'.index ==> s'.index[k] != [] && Distinct(s'.index[k]) && InRange(s', s'.index[k])
    {
      InsertHashIndex(s, b, key, tokens, k);
      assert k in s'.index ==> s'.index[k] == IndexOf(s', k);
    }
  }

  lemma InsertHashInv(s: State, b: nat, key: Key, tokens: nat)
    requires Inv(s) && 0 < b < |s.blocks|
    ensures Inv(InsertHash(s, b, key, tokens))
  {
    InsertHashKeys(s, b, key, tokens);
  }

  lemma CacheItemInv(s: State, it: Item)
    requires Inv(s) && ItemReady(s, it) && it.block != NULL_BLOCK
    ensures Inv(CacheItem(s, it))
  {
    RemoveAllInv(s, {it.block});
    var blk := s.blocks[it.block];
    var s1 := if blk.hash.Some? && blk.numTokens.value < it.tokens then RemoveAll(s, {it.block}) else s;
    InsertHashInv(s1, it.block, it.key, it.tokens);
  }

  lemma {:induction false} CacheItemsInv(s: State, items: seq<Item>)
    requires Inv(s) && ItemsReady(s, items)
    requires forall i :: 0 <= i < |items| ==> items[i].block != NULL_BLOCK
    ensures Inv(CacheItems(s, items))
    ensures |CacheItems(s, items).blocks| == |s.blocks|
  {
    if items != [] {
      CacheItemsInv(s, items[..|items| - 1]);
      CacheItemInv(CacheItems(s, items[..|items| - 1]), items[|items| - 1]);
    }
  }

  lemma CachePartialInv(s: State, b: nat, key: Key, tokens: nat)
    requires Inv(s) && b < |s.blocks|
    ensures Inv(CachePartial(s, b, key, tokens))
  {
    if b != NULL_BLOCK {
      RemoveAllInv(s, {b});
      InsertHashInv(s, b, key, tokens);
      InsertHashInv(RemoveAll(s, {b}), b, key, tokens);
    }
  }

  lemma Replaced(ids: seq<nat>, src: nat, dst: nat)
    requires Distinct(ids) && src in ids && dst !in ids
    ensures Distinct(Drop(ids, {src}) + [dst]) && |Drop(ids, {src}) + [dst]| == |ids|
    ensures forall b :: b in Drop(ids, {src}) + [dst] <==> b == dst || (b in ids && b != src)
  {
    DropMembers(ids, {src});
    DropDistinct(ids, {src});
    var i :| 0 <= i < |ids| && ids[i] == src;
    DropAt(ids, i);
  }

  // Under every key of src the entry of src gives way to dst; other keys keep their entries.
  lemma MoveHashesIndex(s: State, src: nat, dst: nat, k: Key)
    requires Coherent(s) && src < |s.blocks| && dst < |s.blocks|
    requires KeysOf(s, dst) == {}
    ensures var s' := MoveHashes(s, src, dst);
      && Distinct(IndexOf(s', k)) && |IndexOf(s', k)| == |IndexOf(s, k)|
      && forall b :: b in IndexOf(s', k) <==>
           if k in KeysOf(s, src) then b == dst || (b in IndexOf(s, k) && b != src) else b in IndexOf(s, k)
  {
    if k in KeysOf(s, src) {
      assert src in IndexOf(s, k);
      assert dst in IndexOf(s, k) <==> k in KeysOf(s, dst);
      Replaced(IndexOf(s, k), src, dst);
    }
  }

  // Moving re-points every entry of src to dst; the primary key and its token count travel too.
  lemma MoveHashesKeys(s: State, src: nat, dst: nat)
    requires Coherent(s) && src < |s.blocks| && dst < |s.blocks|
    requires KeysOf(s, dst) == {}
    ensures var s' := MoveHashes(s, src, dst);
      && s'.blocks[dst].hash == s.blocks[src].hash
      && s'.blocks[dst].numTokens == s.blocks[src].numTokens
      && (forall b: nat :: b < |s.blocks| ==>
            KeysOf(s', b) == if b == dst then KeysOf(s, src) else if b == src then {} else KeysOf(s, b))
  {
    assert BlockOk(s, src) && BlockOk(s, dst);
  }

  lemma MoveHashesCoherent(s: State, src: nat, dst: nat)
    requires Coherent(s) && src < |s.blocks| && dst < |s.blocks|
    requires KeysOf(s, dst) == {}
    ensures Coherent(MoveHashes(s, src, dst))
  {
    var s' := MoveHashes(s, src, dst);
    MoveHashesKeys(s, src, dst);
    assert BlockOk(s, src) && BlockOk(s, dst);
    forall b: nat | b < |s.blocks|
      ensures BlockOk(s', b)
    {
      assert BlockOk(s, b);
    }
    forall b: nat, k | b < |s.blocks|
      ensures b in IndexOf(s', k) <==> k in KeysOf(s', b)
    {
      MoveHashesIndex(s, src, dst, k);
      assert b in IndexOf(s, k) <==> k in KeysOf(s, b);
      assert src in IndexOf(s, k) <==> k in KeysOf(s, src);
    }
    forall k | k in s'.index
      ensures s'.index[k] != [] && Distinct(s'.index[k]) && InRange(s', s'.index[k])
    {
      MoveHashesIndex(s, src, dst, k);
      assert s'.index[k] == IndexOf(s', k);
      assert forall i :: 0 <= i < |s'.index[k]| ==> s'.index[k][i] in IndexOf(s', k);
    }
  }

  lemma MoveHashesInv(s: State, src: nat, dst: nat)
    requires Inv(s) && src < |s.blocks| && 0 < dst < |s.blocks|
    requires KeysOf(s, dst) == {}
    ensures Inv(MoveHashes(s, src, dst))
  {
    MoveHashesCoherent(s, src, dst);
  }

  // ---- Allocation ----

  lemma VictimOrderIsPartition(s: State, now: int)
    requires Owned(s)
    ensures |VictimOrder(s, now)| == |s.free|
    ensures Distinct(VictimOrder(s, now))
    ensures forall b :: b in VictimOrder(s, now) <==> b in s.free
  {
    var p := ProtectedFree(s, now);
    SplitLengths(s.free, p);
    KeepMembers(s.free, p);
    DropMembers(s.free, p);
    KeepDistinct(s.free, p);
    DropDistinct(s.free, p);
    DistinctConcat(Drop(s.free, p), Keep(s.free, p));
  }

  // Only the fields that ownership does not look at, or the keys of free blocks, change.
  lemma MetaChangeKeepsCoherent(s: State, s': State)
    requires Coherent(s) && |s'.blocks| == |s.blocks|
    requires forall b: nat :: b < |s.blocks| ==>
               s'.blocks[b].hash == s.blocks[b].hash && s'.blocks[b].numTokens == s.blocks[b].numTokens
    requires s'.index == s.index && s'.secondary == s.secondary
    ensures Coherent(s')
    ensures forall b: nat :: b < |s.blocks| ==> KeysOf(s', b) == KeysOf(s, b)
  {
    forall b: nat | b < |s.blocks|
      ensures BlockOk(s', b) && KeysOf(s', b) == KeysOf(s, b)
    {
      assert BlockOk(s, b);
    }
    forall b: nat, k | b < |s.blocks|
      ensures b in IndexOf(s', k) <==> k in KeysOf(s', b)
    {
      assert b in IndexOf(s, k) <==> k in KeysOf(s, b);
    }
  }

  lemma VictimsArePrefix(s: State, n: nat, now: int)
    requires Owned(s) && n <= |s.free|
    ensures |VictimOrder(s, now)| == |s.free|
    ensures Victims(s, n, now) == VictimOrder(s, now)[..n]
    ensures Distinct(Victims(s, n, now))
    ensures forall b :: b in Victims(s, n, now) ==> b in s.free
    ensures |Drop(s.free, Elems(Victims(s, n, now)))| == |s.free| - n
  {
    VictimOrderIsPartition(s, now);
    FreeAfterTaking(s, Victims(s, n, now));
  }

  // The blocks handed out are the first n of the stable partition, so a protected block is
  // taken only when no unprotected free block is left.
  lemma ProtectedTakenLast(s: State, n: nat, now: int, b: nat, c: nat)
    requires Owned(s) && n <= |s.free| && b < |s.blocks| && c < |s.blocks|
    requires b in Victims(s, n, now) && s.blocks[b].protectedUntil > now
    requires c in s.free && s.blocks[c].protectedUntil <= now
    ensures c in Victims(s, n, now)
  {
    var p := ProtectedFree(s, now);
    var order, u, v := VictimOrder(s, now), Drop(s.free, p), Victims(s, n, now);
    VictimsArePrefix(s, n, now);
    KeepMembers(s.free, p);
    DropMembers(s.free, p);
    var i :| 0 <= i < |v| && v[i] == b;
    assert forall x :: 0 <= x < |u| ==> order[x] == u[x] && u[x] in u;
    assert i >= |u|;
    var j :| 0 <= j < |u| && u[j] == c;
    assert order[j] == c && v[j] == c;
  }

  lemma GetNewOwned(cfg: Config, s: State, n: nat, now: int)
    requires Owned(s) && n <= |s.free|
    ensures Owned(GetNew(cfg, s, n, now))
  {
    var v := Elems(Victims(s, n, now));
    VictimsArePrefix(s, n, now);
    DropMembers(s.free, v);
    DropDistinct(s.free, v);
    var s' := GetNew(cfg, s, n, now);
    assert s'.free == Drop(s.free, v);
    forall b: nat | b < |s.blocks|
      ensures s'.blocks[b].refCnt == s.blocks[b].refCnt + if b in v then 1 else 0
    {
    }
    forall i | 0 <= i < |s'.free|
      ensures s'.free[i] < |s'.blocks|
    {
      assert s'.free[i] in s.free;
    }
  }

  // A block handed out has one holder, no protection and, with caching on, no key; every
  // other block is as it was.
  lemma GetNewResult(cfg: Config, s: State, n: nat, now: int)
    requires Inv(s) && n <= |s.free|
    ensures var s', v := GetNew(cfg, s, n, now), Elems(Victims(s, n, now));
      && Inv(s')
      && s'.free == Drop(s.free, v)
      && |s'.blocks| == |s.blocks|
      && (forall b: nat :: b < |s.blocks| ==>
            if b in v then
              s'.blocks[b].refCnt == 1 && s'.blocks[b].protectedUntil == 0 && (cfg.caching ==> KeysOf(s', b) == {})
            else
              s'.blocks[b] == s.blocks[b] && KeysOf(s', b) == KeysOf(s, b))
      && (forall k :: IndexOf(s', k) == if cfg.caching then Drop(IndexOf(s, k), v) else IndexOf(s, k))
  {
    var v := Elems(Victims(s, n, now));
    VictimsArePrefix(s, n, now);
    GetNewOwned(cfg, s, n, now);
    var s1 := ClearProtection(s.(free := Drop(s.free, v), clock := now), v);
    MetaChangeKeepsCoherent(s, s1);
    RemoveAllKeys(s1, v);
    var s2 := if cfg.caching then RemoveAll(s1, v) else s1;
    MetaChangeKeepsCoherent(s2, AddRef(s2, v));
  }

  lemma {:induction false} FreeAfterTaking(s: State, v: seq<nat>)
    requires Distinct(s.free) && Distinct(v) && forall b :: b in v ==> b in s.free
    ensures |Drop(s.free, Elems(v))| == |s.free| - |v|
  {
    SplitLengths(s.free, Elems(v));
    KeepMembers(s.free, Elems(v));
    KeepDistinct(s.free, Elems(v));
    DistinctSize(v);
    DistinctSize(Keep(s.free, Elems(v)));
    assert Elems(Keep(s.free, Elems(v))) == Elems(v);
  }

  // ---- Touch and free ----

  lemma TouchInv(s: State, ids: seq<nat>)
    requires Inv(s) && InRange(s, ids)
    ensures Inv(Touch(s, ids))
    ensures forall b: nat :: b < |s.blocks| ==> KeysOf(Touch(s, ids), b) == KeysOf(s, b)
  {
    var s' := Touch(s, ids);
    DropMembers(s.free, Elems(ids));
    DropDistinct(s.free, Elems(ids));
    MetaChangeKeepsCoherent(s, s');
    forall i | 0 <= i < |s'.free|
      ensures s'.free[i] < |s'.blocks|
    {
      assert s'.free[i] in s.free;
    }
    forall b: nat | b < |s.blocks|
      ensures b in ids <==> multiset(ids)[b] > 0
    {
    }
  }

  // No block is released more often than it is held.
  ghost predicate NoOverFree(s: State, ids: seq<nat>) {
    forall b: nat :: 0 < b < |s.blocks| ==> multiset(ids)[b] <= s.blocks[b].refCnt
  }

  lemma {:induction false} ReleasedMembers(s: State, ids: seq<nat>)
    requires InRange(s, ids)
    ensures Distinct(Released(s, ids))
    ensures forall b: nat :: b in Released(s, ids) <==>
              0 < b < |s.blocks| && 0 < s.blocks[b].refCnt <= multiset(ids)[b]
  {
    if ids != [] {
      var front, last := ids[..|ids| - 1], ids[|ids| - 1];
      ReleasedMembers(s, front);
      assert ids == front + [last];
      assert multiset(ids) == multiset(front) + multiset{last};
      assert multiset(ids)[last] == multiset(front)[last] + 1;
      var tail := if last != NULL_BLOCK && s.blocks[last].refCnt == multiset(ids)[last] then [last] else [];
      DistinctConcat(Released(s, front), tail);
      assert Released(s, ids) == Released(s, front) + tail;
    }
  }

  lemma FreeQueueDistinct(cfg: Config, s: State, ids: seq<nat>, now: int)
    requires Owned(s) && InRange(s, ids)
    ensures var s' := Free(cfg, s, ids, now);
      && Distinct(s'.free) && InRange(s', s'.free)
      && (forall b :: b in s'.free <==> b in s.free || b in Released(s, ids))
  {
    var released, warmth := Released(s, ids), KeptWarm(cfg, s);
    ReleasedMembers(s, ids);
    KeepMembers(released, warmth);
    DropMembers(released, warmth);
    KeepDistinct(released, warmth);
    DropDistinct(released, warmth);
    ThreeParts(Drop(released, warmth), s.free, Keep(released, warmth), Free(cfg, s, ids, now).free, |s.blocks|);
  }

  lemma ThreeParts(a: seq<nat>, b: seq<nat>, c: seq<nat>, all: seq<nat>, n: nat)
    requires all == a + b + c && Distinct(a) && Distinct(b) && Distinct(c)
    requires (forall x :: x in a ==> x !in b && x !in c) && (forall x :: x in b ==> x !in c)
    requires forall x :: x in a || x in b || x in c ==> x < n
    ensures Distinct(all) && forall i :: 0 <= i < |all| ==> all[i] < n
    ensures forall x :: x in all <==> x in a || x in b || x in c
  {
    DistinctConcat(a, b);
    DistinctConcat(a + b, c);
    forall i | 0 <= i < |all|
      ensures all[i] < n
    {
      assert all[i] in all;
    }
  }

  // Ownership survives a release exactly when no block is released more often than it is held.
  lemma FreeOwnedIff(cfg: Config, s: State, ids: seq<nat>, now: int)
    requires Owned(s) && InRange(s, ids)
    ensures Owned(Free(cfg, s, ids, now)) <==> NoOverFree(s, ids)
  {
    var s' := Free(cfg, s, ids, now);
    FreeQueueDistinct(cfg, s, ids, now);
    ReleasedMembers(s, ids);
    forall b: nat | 0 < b < |s.blocks|
      ensures s'.blocks[b].refCnt == s.blocks[b].refCnt - multiset(ids)[b]
      ensures b in s'.free <==> s.blocks[b].refCnt == 0 || 0 < s.blocks[b].refCnt <= multiset(ids)[b]
    {
      assert b in s.free <==> s.blocks[b].refCnt == 0;
    }
    if !NoOverFree(s, ids) {
      var b: nat :| 0 < b < |s.blocks| && multiset(ids)[b] > s.blocks[b].refCnt;
      assert s'.blocks[b].refCnt < 0;
    }
  }

  lemma FreeInv(cfg: Config, s: State, ids: seq<nat>, now: int)
    requires Inv(s) && InRange(s, ids) && NoOverFree(s, ids)
    ensures Inv(Free(cfg, s, ids, now))
    ensures forall b: nat :: b < |s.blocks| ==> KeysOf(Free(cfg, s, ids, now), b) == KeysOf(s, b)
  {
    FreeOwnedIff(cfg, s, ids, now);
    MetaChangeKeepsCoherent(s, Free(cfg, s, ids, now));
  }

  // ---- Expiry, reset, protection ----

  lemma ExpireInv(cfg: Config, s: State, now: int)
    requires Inv(s)
    ensures Inv(Expire(cfg, s, now))
  {
    if ScanNeeded(cfg, s, now) {
      var due := DueFree(s, cfg.timeout.value, now);
      var queue := Keep(s.free, due) + Drop(s.free, due);
      KeepMembers(s.free, due);
      DropMembers(s.free, due);
      KeepDistinct(s.free, due);
      DropDistinct(s.free, due);
      DistinctConcat(Keep(s.free, due), Drop(s.free, due));
      forall i | 0 <= i < |queue|
        ensures queue[i] < |s.blocks|
      {
        assert queue[i] in s.free;
      }
      var s1 := s.(free := queue, nextExpiry := NextExpiry(s, cfg.timeout.value, now, s.free), clock := now);
      MetaChangeKeepsCoherent(s, s1);
      assert Owned(s1) by {
        assert forall b :: b in queue <==> b in s.free;
      }
      RemoveAllInv(s1, due);
    } else {
      MetaChangeKeepsCoherent(s, s.(clock := now));
    }
  }

  lemma ResetInv(s: State)
    requires Inv(s)
    ensures Inv(ResetCache(s))
  {
    var s' := ResetCache(s);
    if |s.blocks| - |s.free| == 1 {
      forall b: nat, k | b < |s.blocks|
        ensures b in IndexOf(s', k) <==> k in KeysOf(s', b)
      {
      }
    }
  }

  lemma ProtectInv(s: State, ids: seq<nat>, until: int)
    requires Inv(s)
    ensures Inv(Protect(s, ids, until))
  {
    MetaChangeKeepsCoherent(s, Protect(s, ids, until));
  }

  // ---- Conservation ----

  function Held(s: State): set<nat> {
    set b: nat | b < |s.blocks| && b != NULL_BLOCK && s.blocks[b].refCnt > 0
  }

  // Free blocks, held blocks and the null block make up the whole pool.
  lemma Conservation(s: State)
    requires Owned(s)
    ensures |s.free| + |Held(s)| + 1 == |s.blocks|
  {
    DistinctSize(s.free);
    var ids := seq(|s.blocks|, i => i);
    DistinctSize(ids);
    forall b: nat | b < |s.blocks|
      ensures b in Elems(ids)
    {
      assert ids[b] == b;
    }
    assert Elems(ids) == Elems(s.free) + Held(s) + {NULL_BLOCK};
  }

  // The blocks that have a key.
  ghost function HoldersOf(s: State, k: Key): set<nat> {
    set b: nat | b < |s.blocks| && k in KeysOf(s, b)
  }

  lemma HoldersCount(s: State, k: Key)
    requires Coherent(s)
    ensures |HoldersOf(s, k)| == |IndexOf(s, k)|
  {
    var ids := IndexOf(s, k);
    DistinctSize(ids);
    forall b | b in ids
      ensures b < |s.blocks|
    {
    }
    assert forall b: nat :: b < |s.blocks| ==> (b in ids <==> k in KeysOf(s, b));
    assert Elems(ids) == HoldersOf(s, k);
  }
}
