// The free list: an intrusive doubly linked list between two sentinel blocks.
module FreeQueue {
  import opened Wrappers
  import opened Seqs
  import opened BlockKeys
  import opened PoolModel

  class KVCacheBlock {
    const blockId: int
    var refCnt: int
    var blockHash: Option<Key>
    var blockHashNumTokens: Option<nat>
    var cacheIdleSince: Option<int>
    var protectedUntil: int
    var isNull: bool
    // Only the free queue touches the links.
    var prev: KVCacheBlock?
    var next: KVCacheBlock?

    constructor (id: int)
      ensures blockId == id && Meta() == FreshBlock && !isNull && prev == null && next == null
    {
      blockId := id;
      refCnt, blockHash, blockHashNumTokens, cacheIdleSince, protectedUntil := 0, None, None, None, 0;
      isNull, prev, next := false, null, null;
    }

    function Meta(): BlockMeta
      reads this`refCnt, this`blockHash, this`blockHashNumTokens, this`cacheIdleSince, this`protectedUntil
    {
      BlockMeta(refCnt, blockHash, blockHashNumTokens, cacheIdleSince, protectedUntil)
    }

    method SetBlockHash(key: Key, tokens: Option<nat>)
      requires blockHash.None? && blockHashNumTokens.None?
      modifies this`blockHash, this`blockHashNumTokens
      ensures Meta() == old(Meta()).(hash := Some(key), numTokens := tokens)
    {
      blockHash, blockHashNumTokens := Some(key), tokens;
    }

    method ResetHash()
      modifies this`blockHash, this`blockHashNumTokens, this`cacheIdleSince, this`protectedUntil
      ensures Meta() == old(Meta()).Reset()
    {
      blockHash, blockHashNumTokens, cacheIdleSince, protectedUntil := None, None, None, 0;
    }
  }

  // The i-th and the next block of c point at each other.
  ghost predicate Joined(c: seq<KVCacheBlock>, i: int)
    reads c`prev, c`next
  {
    0 <= i < |c| - 1 ==> c[i].next == c[i + 1] && c[i + 1].prev == c[i]
  }

  ghost predicate Chain(c: seq<KVCacheBlock>)
    reads c`prev, c`next
  {
    forall i :: Joined(c, i)
  }

  ghost predicate Within<T>(s: seq<T>, all: seq<T>) {
    forall i :: 0 <= i < |s| ==> s[i] in all
  }

  ghost predicate NextSet(c: seq<KVCacheBlock>, i: int)
    reads c`next
  {
    0 <= i < |c| - 1 ==> c[i].next == c[i + 1]
  }

  ghost predicate PrevSet(c: seq<KVCacheBlock>, i: int)
    reads c`prev
  {
    0 < i < |c| ==> c[i].prev == c[i - 1]
  }

  // blocks lie in c from position lo on.
  ghost predicate LiesAt(blocks: seq<KVCacheBlock>, c: seq<KVCacheBlock>, lo: nat) {
    lo + |blocks| <= |c| && forall i {:trigger blocks[i]} :: 0 <= i < |blocks| ==> c[lo + i] == blocks[i]
  }

  // The chaining loop shared by prepend_n and append_n: anchor, the blocks, after.
  method Thread(anchor: KVCacheBlock, blocks: seq<KVCacheBlock>, after: KVCacheBlock, ghost c: seq<KVCacheBlock>,
                ghost lo: nat)
    requires NoDup(c) && lo + |blocks| + 1 < |c| && LiesAt(blocks, c, lo + 1)
    requires c[lo] == anchor && c[lo + |blocks| + 1] == after
    modifies anchor`next, blocks`prev, blocks`next, after`prev
    ensures forall k :: lo <= k <= lo + |blocks| ==> Joined(c, k)
    ensures forall k :: k < lo || k > lo + |blocks| ==> old(Joined(c, k)) ==> Joined(c, k)
  {
    var last := anchor;
    for i := 0 to |blocks|
      invariant last == c[lo + i] && (i > 0 ==> last == blocks[i - 1])
      invariant forall k :: lo <= k < lo + i ==> Joined(c, k)
      invariant forall k :: k < lo || k > lo + |blocks| ==> old(Joined(c, k)) ==> Joined(c, k)
    {
      ghost var p := lo + i;
      assert c[lo + 1 + i] == blocks[i];
      OnlyAt(c, p);
      OnlyAt(c, p + 1);
      label before:
      blocks[i].prev := last;
      last.next := blocks[i];
      last := blocks[i];
      forall k | k != p
        ensures old@before(Joined(c, k)) ==> Joined(c, k)
      {
      }
      assert Joined(c, p);
    }
    ghost var p := lo + |blocks|;
    OnlyAt(c, p);
    OnlyAt(c, p + 1);
    label done:
    last.next := after;
    after.prev := last;
    forall k | k != p
      ensures old@done(Joined(c, k)) ==> Joined(c, k)
    {
    }
    assert Joined(c, p);
  }

  // Links consecutive blocks, as the queue does with the blocks it is built from.
  method LinkAll(blocks: seq<KVCacheBlock>)
    requires NoDup(blocks)
    modifies blocks`prev, blocks`next
    ensures Chain(blocks)
  {
    for i := 0 to |blocks|
      invariant forall k :: k < i ==> NextSet(blocks, k)
      invariant forall k :: k < i ==> PrevSet(blocks, k)
    {
      OnlyAt(blocks, i);
      label before:
      if i > 0 {
        blocks[i].prev := blocks[i - 1];
      }
      if i < |blocks| - 1 {
        blocks[i].next := blocks[i + 1];
      }
      forall k | k < i + 1
        ensures NextSet(blocks, k) && PrevSet(blocks, k)
      {
        assert k < i ==> old@before(NextSet(blocks, k)) && old@before(PrevSet(blocks, k));
      }
    }
    forall k
      ensures Joined(blocks, k)
    {
      assert 0 <= k < |blocks| - 1 ==> NextSet(blocks, k) && PrevSet(blocks, k + 1);
    }
  }

  // Puts a linked stretch of blocks between head and tail.
  method Enclose(head: KVCacheBlock, blocks: seq<KVCacheBlock>, tail: KVCacheBlock, ghost c: seq<KVCacheBlock>)
    requires NoDup(c) && |c| == |blocks| + 2 && c[0] == head && c[|blocks| + 1] == tail && LiesAt(blocks, c, 1)
    requires Chain(blocks)
    modifies c`prev, c`next
    ensures Chain(c) && head.prev == old(head.prev) && tail.next == old(tail.next)
  {
    ghost var n := |blocks|;
    OnlyAt(c, 0);
    OnlyAt(c, n + 1);
    if |blocks| > 0 {
      assert c[1 + 0] == blocks[0] && c[1 + (n - 1)] == blocks[n - 1];
      OnlyAt(c, 1);
      OnlyAt(c, n);
      head.next := blocks[0];
      blocks[0].prev := head;
      tail.prev := blocks[|blocks| - 1];
      blocks[|blocks| - 1].next := tail;
    } else {
      head.next := tail;
      tail.prev := head;
    }
    forall k
      ensures Joined(c, k)
    {
      if 0 < k < n {
        assert c[1 + (k - 1)] == blocks[k - 1] && c[1 + k] == blocks[k];
        assert old(Joined(blocks, k - 1));
      }
    }
  }

  class FreeKVCacheBlockQueue {
    const head: KVCacheBlock
    const tail: KVCacheBlock
    var numFree: int
    // The blocks of the list from head to tail, both sentinels included.
    ghost var ring: seq<KVCacheBlock>

    ghost predicate Linked()
      reads this`ring, ring`prev, ring`next
    {
      && |ring| >= 2 && ring[0] == head && ring[|ring| - 1] == tail
      && NoDup(ring)
      && Chain(ring)
      && head.prev == null && tail.next == null
    }

    ghost predicate Valid()
      reads this`ring, this`numFree, ring`prev, ring`next
    {
      Linked() && numFree == |ring| - 2
    }

    // The free blocks, from head to tail, without the sentinels.
    ghost function Free(): seq<KVCacheBlock>
      reads this`ring
    {
      Inner(ring)
    }

    constructor (blocks: seq<KVCacheBlock>)
      requires Distinct(blocks)
      requires forall b :: b in blocks ==> b.prev == null && b.next == null
      modifies blocks`prev, blocks`next
      ensures Valid() && Free() == blocks && fresh(head) && fresh(tail)
      ensures forall b :: b in ring ==> b == head || b == tail || b in blocks
    {
      numFree := |blocks|;
      head := new KVCacheBlock(-1);
      tail := new KVCacheBlock(-1);
      new;
      NoDupIffDistinct([head] + [tail]);
      NoDupIffDistinct(blocks);
      ghost var r := Splice([head] + [tail], 1, blocks);
      LinkAll(blocks);
      Enclose(head, blocks, tail, r);
      ring := r;
      forall b | b in r
        ensures b == head || b == tail || b in blocks
      {
        var i :| 0 <= i < |r| && r[i] == b;
        assert 1 <= i < 1 + |blocks| ==> r[i] == blocks[i - 1];
      }
    }

    // The assignments shared by popleft, remove and popleft_n_where.
    method Unlink(block: KVCacheBlock, ghost k: nat)
      requires Linked() && 0 < k < |ring| - 1 && block == ring[k]
      modifies this`ring, ring`prev, ring`next
      ensures Linked() && Free() == Drop(old(Free()), {block}) == old(Free()[..k - 1] + Free()[k..])
      ensures |ring| == |old(ring)| - 1
      ensures forall i {:trigger ring[i]} :: 0 <= i < |ring| ==> ring[i] == old(ring)[if i < k then i else i + 1]
      ensures block.prev == null && block.next == null && block !in ring
    {
      ghost var r := ring;
      assert Joined(r, k - 1) && Joined(r, k);
      OnlyAt(r, k - 1);
      OnlyAt(r, k);
      OnlyAt(r, k + 1);
      block.prev.next := block.next;
      block.next.prev := block.prev;
      block.prev, block.next := null, null;
      ring := Cut(r, k, k + 1);
      CutOne(r, k);
      forall j
        ensures Joined(ring, j)
      {
        assert old(Joined(r, if j < k then j else j + 1));
      }
    }

    // Popping from an empty list raises ValueError; here the result is null.
    method PopLeft() returns (r: KVCacheBlock?)
      requires Valid()
      modifies this`ring, this`numFree, ring`prev, ring`next
      ensures Valid()
      ensures old(Free()) == [] ==> r == null && Free() == []
      ensures old(Free()) != [] ==>
                r == old(Free()[0]) && Free() == old(Free()[1..]) && r.prev == null && r.next == null
    {
      assert Joined(ring, 0) && Joined(ring, 1);
      if head.next == tail || head.next == null {
        OnlyAt(ring, 1);
        return null;
      }
      var first := head.next;
      NoDupIffDistinct(ring);
      DropAt(Free(), 0);
      Unlink(first, 1);
      numFree := numFree - 1;
      return first;
    }

    method PopLeftN(n: nat) returns (ret: seq<KVCacheBlock>)
      requires Valid() && n <= numFree
      modifies this`ring, this`numFree, ring`prev, ring`next
      ensures Valid() && ret == old(Free()[..n]) && Free() == old(Free()[n..])
      ensures forall b :: b in ret ==> b.prev == null && b.next == null
    {
      if n == 0 {
        return [];
      }
      numFree := numFree - n;
      ghost var r := ring;
      assert Joined(r, 0);
      var curr := head.next;
      ret := [];
      for i := 0 to n
        invariant ring == r && numFree == |r| - 2 - n
        invariant ret == r[1..i + 1] && curr == r[i + 1]
        invariant forall b :: b in ret ==> b.prev == null && b.next == null
        invariant forall k :: i < k ==> Joined(r, k)
        invariant head.prev == null && tail.next == null
      {
        assert Joined(r, i + 1);
        OnlyAt(r, i + 1);
        label before:
        ret := ret + [curr];
        var last := curr;
        curr := curr.next;
        last.prev, last.next := null, null;
        forall k | i + 1 < k
          ensures Joined(r, k)
        {
          assert old@before(Joined(r, k));
        }
      }
      if curr != null {
        OnlyAt(r, 0);
        Reattach(curr, n);
      }
      forall b | b in ret
        ensures b.prev == null && b.next == null
      {
        var k :| 0 <= k < n && ret[k] == b;
        assert r[k + 1] == b;
      }
    }

    // The rest of the list, from curr on, becomes the whole list.
    method Reattach(curr: KVCacheBlock, ghost n: nat)
      requires |ring| >= 2 + n && ring[0] == head && ring[|ring| - 1] == tail && NoDup(ring)
      requires head.prev == null && tail.next == null && curr == ring[n + 1]
      requires forall k :: n < k ==> Joined(ring, k)
      modifies this`ring, ring`prev, head`next
      ensures Linked() && |ring| == |old(ring)| - n && Free() == old(Free()[n..])
      ensures forall k {:trigger old(ring)[k]} :: 0 < k <= n ==> old(ring)[k].prev == old(ring[k].prev)
    {
      ghost var r := ring;
      OnlyAt(r, 0);
      OnlyAt(r, n + 1);
      head.next := curr;
      curr.prev := head;
      ring := Cut(r, 1, n + 1);
      CutFront(r, n);
      forall k
        ensures Joined(ring, k)
      {
        assert 0 < k ==> old(Joined(r, k + n));
      }
    }

    // The blocks of the list whose metadata satisfies the condition.
    ghost function Matching(condition: BlockMeta -> bool): set<KVCacheBlock>
      reads this`ring, ring
    {
      set b | b in Free() && condition(b.Meta())
    }

    // Blocks that have left the list: unlinked, and not among its nodes any more.
    ghost predicate Out(gone: seq<KVCacheBlock>)
      reads this`ring, gone`prev, gone`next
    {
      forall b :: b in gone ==> b !in ring && b.prev == null && b.next == null
    }

    // One step of the walk: the block is unlinked if it matches. It stands between the blocks
    // kept so far and the rest of todo.
    method Step(block: KVCacheBlock, condition: BlockMeta -> bool, taken: seq<KVCacheBlock>,
                ghost kept: seq<KVCacheBlock>, ghost todo: seq<KVCacheBlock>, ghost nodes: seq<KVCacheBlock>)
      returns (following: KVCacheBlock, ret: seq<KVCacheBlock>, ghost kept': seq<KVCacheBlock>)
      requires Linked() && Out(taken) && Within(ring, nodes)
      requires todo != [] && Free() == kept + todo && block == todo[0]
      modifies this`ring, ring`prev, ring`next
      ensures Linked() && Out(ret) && Within(ring, nodes)
      ensures var hit := condition(old(block.Meta()));
        && ret == (if hit then taken + [block] else taken)
        && kept' == (if hit then kept else kept + [block])
      ensures Free() == kept' + todo[1..]
      ensures |kept'| + 1 < |ring| && following == ring[|kept'| + 1]
    {
      ghost var r, k := ring, |kept| + 1;
      Regroup(kept, todo);
      assert Free()[k - 1] == ring[k] && Joined(ring, k);
      following, ret, kept' := block.next, taken, kept;
      if condition(block.Meta()) {
        Unlink(block, k);
        assert ring[k] == r[k + 1];
        ret := ret + [block];
      } else {
        kept' := kept + [block];
      }
    }

    // The walk from the head: stops after n matches or at the tail. Of the blocks done with,
    // those in ret are gone and those in kept are still in the list, before those in todo.
    method Walk(n: nat, condition: BlockMeta -> bool)
      returns (ret: seq<KVCacheBlock>, ghost done: seq<KVCacheBlock>, ghost todo: seq<KVCacheBlock>)
      requires Linked()
      modifies this`ring, ring`prev, ring`next
      ensures Linked() && Out(ret)
      ensures old(Free()) == done + todo && |ret| <= n && (|ret| < n ==> todo == [])
      ensures ret == Keep(done, old(Matching(condition)))
      ensures Free() == Drop(done, old(Matching(condition))) + todo
    {
      ghost var f, hits := Free(), Matching(condition);
      assert Joined(ring, 0);
      var curr := head.next;
      ret, done, todo := [], [], f;
      ghost var kept: seq<KVCacheBlock> := [];
      while curr != tail && |ret| < n
        invariant Linked() && Out(ret) && Within(ring, old(ring))
        invariant f == done + todo && |ret| <= n
        invariant Free() == kept + todo && curr == ring[|kept| + 1]
        invariant ret == Keep(done, hits) && kept == Drop(done, hits)
        decreases |todo|
      {
        OnlyAt(ring, |kept| + 1);
        Regroup(done, todo);
        Snoc(done, todo[0], hits);
        assert curr == Free()[|kept|] == todo[0];
        assert condition(todo[0].Meta()) <==> todo[0] in hits;
        curr, ret, kept := Step(curr, condition, ret, kept, todo, old(ring));
        done, todo := done + [todo[0]], todo[1..];
      }
      OnlyAt(ring, |kept| + 1);
    }

    // Takes the first n matching blocks in list order, fewer when not enough match.
    method PopLeftNWhere(n: nat, condition: BlockMeta -> bool) returns (ret: seq<KVCacheBlock>)
      requires Valid()
      modifies this`ring, this`numFree, ring`prev, ring`next
      ensures Valid()
      ensures ret == First(Keep(old(Free()), old(Matching(condition))), n)
      ensures Free() == Drop(old(Free()), Elems(ret))
      ensures forall b :: b in ret ==> b.prev == null && b.next == null
    {
      ghost var f, hits := Free(), Matching(condition);
      NoDupIffDistinct(ring);
      TakenLength(f, hits, n);
      if n == 0 {
        DropNothing(f, {});
        assert Elems<KVCacheBlock>([]) == {};
        return [];
      }
      ghost var done, todo;
      ret, done, todo := Walk(n, condition);
      SplitDone(f, done, todo, hits);
      assert ret == First(Keep(f, hits), n);
      numFree := numFree - |ret|;
    }

    // RuntimeError when the block has no links; it then is in no list.
    method Remove(block: KVCacheBlock) returns (ok: bool)
      requires Valid() && (block in Free() || block.prev == null || block.next == null)
      modifies this`ring, this`numFree, ring`prev, ring`next
      ensures Valid() && ok == (block in old(Free()))
      ensures Free() == Drop(old(Free()), {block})
      ensures ok ==> block.prev == null && block.next == null
    {
      ghost var k := 0;
      if block in Free() {
        k :| 0 <= k < |ring| - 2 && Free()[k] == block;
        assert ring[k + 1] == block && Joined(ring, k) && Joined(ring, k + 1);
      } else {
        DropNothing(Free(), {block});
      }
      if block.prev == null || block.next == null {
        return false;
      }
      Unlink(block, k + 1);
      numFree := numFree - 1;
      return true;
    }

    method Append(block: KVCacheBlock)
      requires Valid() && block !in ring
      modifies this`ring, this`numFree, ring`prev, ring`next, block`prev, block`next
      ensures Valid() && Free() == old(Free()) + [block]
    {
      ghost var r, m := ring, |ring| - 1;
      assert Joined(r, m - 1);
      OnlyAt(r, m - 1);
      OnlyAt(r, m);
      var last := tail.prev;
      last.next := block;
      block.prev := last;
      block.next := tail;
      tail.prev := block;
      numFree := numFree + 1;
      ring := Splice(r, m, [block]);
      forall k
        ensures Joined(ring, k)
      {
        assert old(Joined(r, k));
      }
    }

    // The chaining shared by prepend_n and append_n: the blocks go before position k.
    method Insert(anchor: KVCacheBlock, blocks: seq<KVCacheBlock>, after: KVCacheBlock, ghost k: nat)
      requires Linked() && 0 < k < |ring| && anchor == ring[k - 1] && after == ring[k]
      requires Distinct(blocks) && forall b :: b in blocks ==> b !in ring
      modifies this`ring, ring`prev, ring`next, blocks`prev, blocks`next
      ensures Linked() && |ring| == |old(ring)| + |blocks|
      ensures Free() == old(ring[1..k]) + blocks + old(ring[k..|ring| - 1])
    {
      ghost var r, n := ring, |blocks|;
      assert r[0] in r && r[|r| - 1] in r && r[k - 1] in r && r[k] in r;
      OnlyAt(r, 0);
      OnlyAt(r, |r| - 1);
      ghost var all := Splice(r, k, blocks);
      forall i | i < k - 1 || i > k - 1 + n
        ensures Joined(all, i)
      {
        assert Joined(r, if i < k - 1 then i else i - n);
      }
      Thread(anchor, blocks, after, all, k - 1);
      ring := all;
      EndsKept(r, all, blocks, k);
    }

    // Neither sentinel gets a link beyond the list.
    lemma EndsKept(r: seq<KVCacheBlock>, all: seq<KVCacheBlock>, blocks: seq<KVCacheBlock>, k: nat)
      requires |r| >= 2 && 0 < k < |r| && |all| == |r| + |blocks|
      requires forall i {:trigger all[i]} :: 0 <= i < k ==> all[i] == r[i]
      requires forall i {:trigger all[i]} :: k + |blocks| <= i < |all| ==> all[i] == r[i - |blocks|]
      ensures all[0] == r[0] && all[|all| - 1] == r[|r| - 1]
    {
    }

    method PrependN(blocks: seq<KVCacheBlock>)
      requires Valid() && Distinct(blocks) && forall b :: b in blocks ==> b !in ring
      modifies this`ring, this`numFree, ring`prev, ring`next, blocks`prev, blocks`next
      ensures Valid() && Free() == blocks + old(Free())
    {
      if |blocks| == 0 {
        return;
      }
      assert Joined(ring, 0);
      Insert(head, blocks, head.next, 1);
      numFree := numFree + |blocks|;
    }

    method AppendN(blocks: seq<KVCacheBlock>)
      requires Valid() && Distinct(blocks) && forall b :: b in blocks ==> b !in ring
      modifies this`ring, this`numFree, ring`prev, ring`next, blocks`prev, blocks`next
      ensures Valid() && Free() == old(Free()) + blocks
    {
      if |blocks| == 0 {
        return;
      }
      assert Joined(ring, |ring| - 2);
      Insert(tail.prev, blocks, tail, |ring| - 1);
      numFree := numFree + |blocks|;
    }

    method GetAllFreeBlocks() returns (ret: seq<KVCacheBlock>)
      requires Valid()
      ensures ret == Free()
    {
      ret := [];
      assert Joined(ring, 0);
      var curr := head.next;
      while curr.next != null
        invariant |ret| <= |ring| - 2 && ret == ring[1..|ret| + 1] && curr == ring[|ret| + 1]
        decreases |ring| - |ret|
      {
        assert Joined(ring, |ret| + 1);
        ret := ret + [curr];
        curr := curr.next;
      }
      assert Joined(ring, |ret| + 1);
    }
  }

  // ---- Facts about selections used above ----

  lemma Regroup<T>(a: seq<T>, b: seq<T>)
    requires b != []
    ensures (a + b)[|a|] == b[0]
    ensures (a + b)[..|a|] + (a + b)[|a| + 1..] == a + b[1..]
    ensures a + b == a + [b[0]] + b[1..]
  {
    assert (a + b)[..|a|] == a;
    assert (a + b)[|a| + 1..] == b[1..];
  }

  lemma Snoc<T>(done: seq<T>, x: T, hits: set<T>)
    ensures Keep(done + [x], hits) == Keep(done, hits) + if x in hits then [x] else []
    ensures Drop(done + [x], hits) == Drop(done, hits) + if x in hits then [] else [x]
  {
    KeepConcat(done, [x], hits);
    DropConcat(done, [x], hits);
  }

  // What the walk has taken is a prefix of all that could be taken, and only that is missing.
  lemma SplitDone<T>(f: seq<T>, done: seq<T>, todo: seq<T>, hits: set<T>)
    requires Distinct(f) && f == done + todo
    ensures Keep(f, hits) == Keep(done, hits) + Keep(todo, hits)
    ensures Drop(f, Elems(Keep(done, hits))) == Drop(done, hits) + todo
  {
    var gone := Elems(Keep(done, hits));
    KeepMembers(done, hits);
    forall j, i | 0 <= j < |todo| && 0 <= i < |done|
      ensures todo[j] != done[i]
    {
      assert f[|done| + j] == todo[j] && f[i] == done[i];
    }
    DropSame(done, hits, gone);
    DropNothing(todo, gone);
    DropConcat(done, todo, gone);
    KeepConcat(done, todo, hits);
  }

  lemma TakenLength<T>(f: seq<T>, hits: set<T>, n: nat)
    requires Distinct(f)
    ensures var taken := First(Keep(f, hits), n);
      Distinct(taken) && |Drop(f, Elems(taken))| == |f| - |taken|
  {
    KeepMembers(f, hits);
    KeepDistinct(f, hits);
    DropLength(f, First(Keep(f, hits), n));
  }

  lemma DropLength<T>(f: seq<T>, taken: seq<T>)
    requires Distinct(f) && Distinct(taken) && forall x :: x in taken ==> x in f
    ensures |Drop(f, Elems(taken))| == |f| - |taken|
  {
    SplitLengths(f, Elems(taken));
    KeepMembers(f, Elems(taken));
    KeepDistinct(f, Elems(taken));
    DistinctSize(taken);
    DistinctSize(Keep(f, Elems(taken)));
    assert Elems(Keep(f, Elems(taken))) == Elems(taken);
  }
}
