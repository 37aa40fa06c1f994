// How the loops that attach, move and drop keys build up the functions of PoolModel.dfy.
module CacheSteps {
  import opened Wrappers
  import opened Seqs
  import opened BlockKeys
  import opened HashViews
  import opened PoolModel
  import opened PoolInvariants
  import opened PoolSteps
  import opened Events

  // ---- Items ----

  lemma CacheItemsOneMore(s: State, items: seq<Item>, it: Item)
    requires ItemsReady(s, items + [it])
    ensures ItemsReady(s, items) && ItemReady(CacheItems(s, items), it)
    ensures CacheItems(s, items + [it]) == CacheItem(CacheItems(s, items), it)
  {
    assert (items + [it])[..|items|] == items;
  }

  lemma {:induction false} ReadyPrefix(s: State, items: seq<Item>, n: nat)
    requires ItemsReady(s, items) && n <= |items|
    ensures ItemsReady(s, items[..n])
    decreases |items|
  {
    if n == |items| {
      assert items[..n] == items;
    } else {
      var front := items[..|items| - 1];
      ReadyPrefix(s, front, n);
      assert front[..n] == items[..n];
    }
  }

  lemma {:induction false} BatchPrefix(c: Batch, i: nat, upTo: nat)
    requires c.Ok() && c.cached <= i <= upTo <= c.full
    ensures c.Items(i) <= c.Items(upTo)
    decreases upTo
  {
    if i < upTo {
      BatchPrefix(c, i, upTo - 1);
    }
  }

  // The items passed over so far are ready when all are.
  lemma BatchReady(s: State, c: Batch, i: nat)
    requires c.Ok() && c.cached <= i <= c.full && ItemsReady(s, c.Items(c.full))
    ensures ItemsReady(s, c.Items(i))
  {
    var all, some := c.Items(c.full), c.Items(i);
    BatchPrefix(c, i, c.full);
    ReadyPrefix(s, all, |some|);
    assert all[..|some|] == some;
  }

  // Items for real blocks, under keys that can be unpacked.
  ghost predicate RealItems(items: seq<Item>) {
    forall i :: 0 <= i < |items| ==> items[i].block != NULL_BLOCK && |items[i].key| >= 4
  }

  lemma {:induction false} BatchReal(c: Batch, upTo: nat)
    requires c.Ok() && c.cached <= upTo <= c.full
    ensures RealItems(c.Items(upTo))
    decreases upTo
  {
    if upTo > c.cached {
      BatchReal(c, upTo - 1);
      assert RealItems(c.Items(upTo - 1));
    }
  }

  lemma CachedSound(s: State, items: seq<Item>)
    requires Sound(s) && ItemsReady(s, items) && forall i :: 0 <= i < |items| ==> items[i].block != NULL_BLOCK
    ensures Sound(CacheItems(s, items)) && SoundKeys(CacheItems(s, items))
    ensures |CacheItems(s, items).blocks| == |s.blocks|
  {
    Open(s);
    CacheItemsInv(s, items);
    SoundHasSoundKeys(CacheItems(s, items));
  }

  lemma {:induction false} CachedQueue(s: State, items: seq<Item>)
    requires ItemsReady(s, items)
    ensures CacheItems(s, items).free == s.free
  {
    if items != [] {
      CachedQueue(s, items[..|items| - 1]);
    }
  }

  // Keys of a shorter prefix are on the block and give way.
  predicate GivesWay(s: State, it: Item)
    requires ItemReady(s, it)
  {
    s.blocks[it.block].hash.Some? && s.blocks[it.block].numTokens.value < it.tokens
  }

  // The key is on the block already, and is announced all the same.
  predicate Repeats(s: State, it: Item)
    requires ItemReady(s, it)
  {
    !GivesWay(s, it) && it.key in KeysOf(s, it.block)
  }

  function Repeated(s: State, items: seq<Item>): multiset<Key>
    requires ItemsReady(s, items)
  {
    if items == [] then multiset{}
    else
      var front, it := items[..|items| - 1], items[|items| - 1];
      Repeated(s, front) + if Repeats(CacheItems(s, front), it) then multiset{it.key} else multiset{}
  }

  lemma RepeatedOneMore(s: State, items: seq<Item>, it: Item)
    requires ItemsReady(s, items + [it])
    ensures ItemsReady(s, items) && ItemReady(CacheItems(s, items), it)
    ensures Repeated(s, items + [it]) ==
              Repeated(s, items) + if Repeats(CacheItems(s, items), it) then multiset{it.key} else multiset{}
  {
    assert (items + [it])[..|items|] == items;
  }

  // A caller that attaches each key to each block once repeats no announcement.
  ghost predicate OnceEach(s: State, items: seq<Item>) {
    && (forall i :: 0 <= i < |items| ==> items[i].block < |s.blocks| && items[i].key !in KeysOf(s, items[i].block))
    && (forall i, j :: 0 <= i < j < |items| ==> items[i].block != items[j].block || items[i].key != items[j].key)
  }

  lemma CacheItemKeys(s: State, it: Item, b: nat)
    requires Coherent(s) && ItemReady(s, it) && b < |s.blocks|
    ensures KeysOf(CacheItem(s, it), b) <= KeysOf(s, b) + if b == it.block then {it.key} else {}
  {
    RemoveAllKeys(s, {it.block});
    var s1 := if GivesWay(s, it) then RemoveAll(s, {it.block}) else s;
    InsertHashKeys(s1, it.block, it.key, it.tokens);
  }

  lemma {:induction false} KeysComeFromItems(s: State, items: seq<Item>, b: nat, k: Key)
    requires Inv(s) && ItemsReady(s, items) && b < |s.blocks|
    requires forall i :: 0 <= i < |items| ==> items[i].block != NULL_BLOCK
    ensures |CacheItems(s, items).blocks| == |s.blocks|
    ensures k in KeysOf(CacheItems(s, items), b) ==>
              k in KeysOf(s, b) || exists i :: 0 <= i < |items| && items[i].block == b && items[i].key == k
  {
    CacheItemsInv(s, items);
    if items != [] {
      var front, it := items[..|items| - 1], items[|items| - 1];
      KeysComeFromItems(s, front, b, k);
      CacheItemsInv(s, front);
      CacheItemKeys(CacheItems(s, front), it, b);
      if k in KeysOf(CacheItems(s, items), b) && k !in KeysOf(s, b) {
        if b == it.block && k == it.key {
          assert items[|items| - 1].key == k;
        } else {
          var i :| 0 <= i < |front| && front[i].block == b && front[i].key == k;
          assert items[i].key == k;
        }
      }
    }
  }

  lemma {:induction false} NothingRepeated(s: State, items: seq<Item>)
    requires Inv(s) && ItemsReady(s, items) && OnceEach(s, items)
    requires forall i :: 0 <= i < |items| ==> items[i].block != NULL_BLOCK
    ensures Repeated(s, items) == multiset{}
  {
    if items != [] {
      var front, it := items[..|items| - 1], items[|items| - 1];
      NothingRepeated(s, front);
      KeysComeFromItems(s, front, it.block, it.key);
    }
  }

  // The block hashes of the items, as the stored event lists them.
  function HashesOf(items: seq<Item>): seq<Bytes> {
    seq(|items|, i requires 0 <= i < |items| => GetBlockHash(items[i].key))
  }

  // What the call announces: the hashes of the items, after the last block cached before,
  // with the token range of all blocks passed over.
  function StoredEvent(c: Batch): Event
    requires c.Ok()
  {
    BlockStored(HashesOf(c.Items(c.full)), Parent(c), TokensIn(c.cached, c.blockSize), TokensIn(c.full, c.blockSize),
                c.blockSize, c.group)
  }

  function Parent(c: Batch): Option<Bytes>
    requires c.Ok()
  {
    if c.cached == 0 then None else Some(c.hashes[c.cached - 1])
  }

  // What a batch needs, sealed like the other invariants.
  ghost predicate BatchReadyFor(s: State, c: Batch) {
    forall t {:trigger Look(t)} :: Look(t) && t == s ==> c.Ok() && ItemsReady(t, c.Items(c.full))
  }

  // One round of the loop over full blocks: the block is passed over, or is the next item.
  lemma BatchStep(s: State, c: Batch, i: nat) returns (skip: bool, it: Item, more: seq<Item>)
    requires Sound(s) && c.Ok() && c.cached <= i < c.full && BatchReadyFor(s, c)
    ensures skip == c.Skips(i) && it == c.ItemAt(i) && |it.key| >= 4 && GetBlockHash(it.key) == c.hashes[i]
    ensures more == c.Items(i + 1) && more == (if skip then c.Items(i) else c.Items(i) + [it])
    ensures !skip ==> OneMore(s, c.Items(i), it)
  {
    assert Look(s);
    skip, it, more := c.Skips(i), c.ItemAt(i), c.Items(i + 1);
    KeyRoundTrip(c.hashes[i], c.group);
    assert c.Items(i) + [] == c.Items(i);
    BatchReal(c, i);
    BatchReady(s, c, i + 1);
    if !skip {
      ItemStep(s, c.Items(i), it);
    }
  }

  lemma ItemStep(s: State, front: seq<Item>, it: Item)
    requires Sound(s) && ItemsReady(s, front + [it]) && RealItems(front)
    ensures OneMore(s, front, it)
  {
    CacheItemsOneMore(s, front, it);
    RepeatedOneMore(s, front, it);
    CachedSound(s, front);
    assert HashesOf(front + [it]) == HashesOf(front) + [GetBlockHash(it.key)];
  }

  // What caching one more item adds.
  ghost predicate OneMore(s: State, front: seq<Item>, it: Item) {
    && ItemsReady(s, front) && ItemsReady(s, front + [it]) && ItemReady(CacheItems(s, front), it)
    && SoundKeys(CacheItems(s, front)) && HashesOf(front + [it]) == HashesOf(front) + [GetBlockHash(it.key)]
    && CacheItems(s, front + [it]) == CacheItem(CacheItems(s, front), it)
    && Repeated(s, front + [it]) == Repeated(s, front)
         + if Repeats(CacheItems(s, front), it) then multiset{it.key} else multiset{}
  }

  lemma AnnouncedMore(hashes: seq<Bytes>, hash: Bytes, group: nat)
    requires group < GROUP_LIMIT
    ensures forall k :: Announced(hashes + [hash], group, k) ==
              Announced(hashes, group, k) + if MakeKey(hash, group) == k then 1 else 0
  {
    forall k
      ensures Announced(hashes + [hash], group, k) ==
              Announced(hashes, group, k) + if MakeKey(hash, group) == k then 1 else 0
    {
      AnnouncedSnoc(hashes, hash, group, k);
    }
  }

  lemma AnnouncedAlone(hashes: seq<Bytes>, group: nat, key: Key)
    requires group < GROUP_LIMIT && |hashes| == 1 && MakeKey(hashes[0], group) == key
    ensures forall k :: Announced(hashes, group, k) == multiset{key}[k]
  {
    AnnouncedMore([], hashes[0], group);
    assert [] + [hashes[0]] == hashes;
  }

  // An item is cached in two steps: the keys that give way go, then the key is attached.
  lemma CacheItemPlan(s: State, it: Item) returns (s1: State)
    requires SoundKeys(s) && ItemReady(s, it)
    ensures s1 == (if GivesWay(s, it) then RemoveAll(s, {it.block}) else s)
    ensures SoundKeys(s1) && |s1.blocks| == |s.blocks|
    ensures CacheItem(s, it) == InsertHash(s1, it.block, it.key, it.tokens)
    ensures it.key in KeysOf(s1, it.block) <==> Repeats(s, it)
  {
    OpenKeys(s);
    RemoveAllKeys(s, {it.block});
    s1 := if GivesWay(s, it) then RemoveAll(s, {it.block}) else s;
  }

  // The same for a partial entry, which is never announced twice.
  lemma CachePartialPlan(s: State, b: nat, key: Key, tokens: nat) returns (already: bool, gives: bool, s1: State)
    requires SoundKeys(s) && 0 < b < |s.blocks|
    ensures already == (s.blocks[b].hash == Some(key) || b in IndexOf(s, key))
    ensures gives == (!already && s.blocks[b].hash.Some? && s.blocks[b].numTokens.Some?
              && s.blocks[b].numTokens.value < tokens)
    ensures s1 == if gives then RemoveAll(s, {b}) else s
    ensures SoundKeys(s1) && |s1.blocks| == |s.blocks|
    ensures CachePartial(s, b, key, tokens) == InsertHash(s1, b, key, tokens)
    ensures (key in KeysOf(s1, b) <==> already) && (key in KeysOf(s, b) <==> already)
    ensures already ==> CachePartial(s, b, key, tokens) == s
  {
    OpenKeys(s);
    assert b in IndexOf(s, key) <==> key in KeysOf(s, b);
    RemoveAllKeys(s, {b});
    already := s.blocks[b].hash == Some(key) || b in IndexOf(s, key);
    gives := !already && s.blocks[b].hash.Some? && s.blocks[b].numTokens.Some? && s.blocks[b].numTokens.value < tokens;
    s1 := if gives then RemoveAll(s, {b}) else s;
  }

  lemma CountInserted(s: State, b: nat, key: Key, tokens: nat)
    requires SoundKeys(s) && b < |s.blocks|
    ensures forall k :: |IndexOf(InsertHash(s, b, key, tokens), k)| ==
              |IndexOf(s, k)| + if k == key && key !in KeysOf(s, b) then 1 else 0
  {
    forall k
      ensures |IndexOf(InsertHash(s, b, key, tokens), k)| ==
                |IndexOf(s, k)| + if k == key && key !in KeysOf(s, b) then 1 else 0
    {
      InsertionCount(s, b, key, tokens, k);
    }
  }

  lemma CachePartialSound(s: State, b: nat, key: Key, tokens: nat)
    requires Sound(s) && b < |s.blocks|
    ensures Sound(CachePartial(s, b, key, tokens))
  {
    Open(s);
    CachePartialInv(s, b, key, tokens);
  }

  // ---- Moving ----

  // The keys attached to b one after the other; tokens goes with the first.
  function InsertAll(s: State, b: nat, keys: seq<Key>, tokens: nat): State
    requires b < |s.blocks|
    ensures |InsertAll(s, b, keys, tokens).blocks| == |s.blocks|
  {
    if keys == [] then s
    else InsertHash(InsertAll(s, b, keys[..|keys| - 1], tokens), b, keys[|keys| - 1], tokens)
  }

  lemma InsertAllOneMore(s: State, b: nat, keys: seq<Key>, tokens: nat, i: nat)
    requires b < |s.blocks| && i < |keys|
    ensures InsertAll(s, b, keys[..i + 1], tokens) == InsertHash(InsertAll(s, b, keys[..i], tokens), b, keys[i], tokens)
  {
    assert keys[..i + 1][..i] == keys[..i];
  }

  lemma {:induction false} InsertAllSound(s: State, b: nat, keys: seq<Key>, tokens: nat)
    requires SoundKeys(s) && b < |s.blocks|
    ensures SoundKeys(InsertAll(s, b, keys, tokens))
  {
    if keys != [] {
      InsertAllSound(s, b, keys[..|keys| - 1], tokens);
      var t := InsertAll(s, b, keys[..|keys| - 1], tokens);
      OpenKeys(t);
      InsertHashKeys(t, b, keys[|keys| - 1], tokens);
    }
  }

  // t is s with the keys attached to b: the first as the primary one, the others as secondary.
  ghost predicate Attached(s: State, t: State, b: nat, keys: seq<Key>, tokens: nat)
    requires b < |s.blocks| && keys != []
  {
    && t.blocks == s.blocks[b := s.blocks[b].(hash := Some(keys[0]), numTokens := Some(tokens))]
    && t.secondary == (if |keys| == 1 then s.secondary else s.secondary[b := Elems(keys[1..])])
    && (forall k :: k in t.index <==> k in s.index || k in keys)
    && (forall k :: IndexOf(t, k) == if k in keys then IndexOf(s, k) + [b] else IndexOf(s, k))
    && t.free == s.free && t.nextExpiry == s.nextExpiry && t.clock == s.clock
  }

  lemma AttachFirst(s: State, b: nat, key: Key, tokens: nat)
    requires b < |s.blocks| && s.blocks[b].hash.None? && b !in IndexOf(s, key)
    ensures Attached(s, InsertHash(s, b, key, tokens), b, [key], tokens)
  {
  }

  lemma AttachNext(s: State, t: State, b: nat, keys: seq<Key>, last: Key, tokens: nat)
    requires b < |s.blocks| && keys != [] && Attached(s, t, b, keys, tokens)
    requires b !in s.secondary && b !in IndexOf(s, last) && last !in keys
    ensures Attached(s, InsertHash(t, b, last, tokens), b, keys + [last], tokens)
  {
    var u, all := InsertHash(t, b, last, tokens), keys + [last];
    TailWithLast(keys, last);
    AttachedLast(s, t, b, keys, last, tokens);
    assert u.secondary == s.secondary[b := Elems(all[1..])];
    forall k
      ensures IndexOf(u, k) == if k in all then IndexOf(s, k) + [b] else IndexOf(s, k)
    {
      assert IndexOf(t, k) == if k in keys then IndexOf(s, k) + [b] else IndexOf(s, k);
    }
  }

  lemma TailWithLast(keys: seq<Key>, last: Key)
    requires keys != []
    ensures Elems((keys + [last])[1..]) == Elems(keys[1..]) + {last} && (|keys| == 1 ==> Elems(keys[1..]) == {})
  {
    assert (keys + [last])[1..] == keys[1..] + [last];
  }

  // The key that follows the others becomes a secondary one.
  lemma AttachedLast(s: State, t: State, b: nat, keys: seq<Key>, last: Key, tokens: nat)
    requires b < |s.blocks| && keys != [] && Attached(s, t, b, keys, tokens)
    requires b !in s.secondary && b !in IndexOf(s, last) && last !in keys
    ensures b < |t.blocks| && var u := InsertHash(t, b, last, tokens);
      && u.secondary == t.secondary[b := (if b in t.secondary then t.secondary[b] else {}) + {last}]
      && u.index == t.index[last := IndexOf(t, last) + [b]]
      && u == t.(secondary := u.secondary, index := u.index)
  {
    assert IndexOf(t, last) == IndexOf(s, last);
  }

  lemma {:induction false} InsertAllIs(s: State, b: nat, keys: seq<Key>, tokens: nat)
    requires Coherent(s) && b < |s.blocks| && KeysOf(s, b) == {} && Distinct(keys) && keys != []
    ensures Attached(s, InsertAll(s, b, keys, tokens), b, keys, tokens)
  {
    var front, last := keys[..|keys| - 1], keys[|keys| - 1];
    assert BlockOk(s, b);
    assert b in IndexOf(s, last) <==> last in KeysOf(s, b);
    assert keys == front + [last];
    if front == [] {
      assert keys == [last];
      AttachFirst(s, b, last, tokens);
    } else {
      InsertAllIs(s, b, front, tokens);
      AttachNext(s, InsertAll(s, b, front, tokens), b, front, last, tokens);
    }
  }

  // Taking the keys off src and attaching them to dst, the primary one first, moves them.
  lemma MoveIsInsertAll(s: State, src: nat, dst: nat, keys: seq<Key>)
    requires Sound(s) && src < |s.blocks| && dst < |s.blocks| && KeysOf(s, dst) == {}
    requires Distinct(keys) && Elems(keys) == KeysOf(s, src) && keys != []
    requires s.blocks[src].hash.Some? && keys[0] == s.blocks[src].hash.value && s.blocks[src].numTokens.Some?
    ensures InsertAll(RemoveAll(s, {src}), dst, keys, s.blocks[src].numTokens.value) == MoveHashes(s, src, dst)
  {
    Open(s);
    var t, tokens := RemoveAll(s, {src}), s.blocks[src].numTokens.value;
    RemoveAllKeys(s, {src});
    InsertAllIs(t, dst, keys, tokens);
    SecondaryMoved(s, src, keys);
    AttachedIsMoved(s, t, InsertAll(t, dst, keys, tokens), src, dst, keys);
  }

  lemma AttachedIsMoved(s: State, t: State, u: State, src: nat, dst: nat, keys: seq<Key>)
    requires Coherent(s) && src < |s.blocks| && dst < |s.blocks| && src != dst
    requires t == RemoveAll(s, {src}) && Elems(keys) == KeysOf(s, src) && keys != []
    requires s.blocks[src].hash.Some? && keys[0] == s.blocks[src].hash.value && s.blocks[src].numTokens.Some?
    requires Attached(t, u, dst, keys, s.blocks[src].numTokens.value)
    requires src in s.secondary <==> |keys| > 1
    requires |keys| > 1 ==> s.secondary[src] == Elems(keys[1..])
    requires |keys| == 1 ==> s.secondary - {src} == s.secondary
    ensures u == MoveHashes(s, src, dst)
  {
    var m := MoveHashes(s, src, dst);
    assert u.blocks == m.blocks;
    assert u.secondary == m.secondary;
    MovedIndex(s, t, u, src, dst, keys);
  }

  lemma MovedIndex(s: State, r: State, u: State, src: nat, dst: nat, keys: seq<Key>)
    requires Coherent(s) && src < |s.blocks| && dst < |s.blocks| && Elems(keys) == KeysOf(s, src) && keys != []
    requires r == RemoveAll(s, {src})
    requires forall k :: k in u.index <==> k in r.index || k in keys
    requires forall k :: IndexOf(u, k) == if k in keys then IndexOf(r, k) + [dst] else IndexOf(r, k)
    ensures u.index == MoveHashes(s, src, dst).index
  {
    var m := MoveHashes(s, src, dst).index;
    forall k
      ensures k in u.index <==> k in m
      ensures k in u.index ==> u.index[k] == m[k]
    {
      MovedKey(s, r, u, src, dst, keys, k);
    }
    SameMap(u.index, m);
  }

  lemma SameMap(a: map<Key, seq<nat>>, b: map<Key, seq<nat>>)
    requires forall k :: (k in a <==> k in b) && (k in a ==> a[k] == b[k])
    ensures a == b
  {
    assert a.Keys == b.Keys;
  }

  lemma MovedKey(s: State, r: State, u: State, src: nat, dst: nat, keys: seq<Key>, k: Key)
    requires Coherent(s) && src < |s.blocks| && dst < |s.blocks| && Elems(keys) == KeysOf(s, src) && keys != []
    requires r == RemoveAll(s, {src})
    requires k in u.index <==> k in r.index || k in keys
    requires IndexOf(u, k) == if k in keys then IndexOf(r, k) + [dst] else IndexOf(r, k)
    ensures k in u.index <==> k in MoveHashes(s, src, dst).index
    ensures k in u.index ==> u.index[k] == MoveHashes(s, src, dst).index[k]
  {
    assert keys[0] in Elems(keys);
    MovedEntry(s, src, k);
    assert k in keys <==> k in Elems(keys);
    assert k in u.index ==> u.index[k] == IndexOf(u, k);
  }

  lemma SecondaryMoved(s: State, src: nat, keys: seq<Key>)
    requires Coherent(s) && src < |s.blocks| && Distinct(keys) && Elems(keys) == KeysOf(s, src) && keys != []
    requires s.blocks[src].hash.Some? && keys[0] == s.blocks[src].hash.value
    ensures src in s.secondary <==> |keys| > 1
    ensures |keys| > 1 ==> s.secondary[src] == Elems(keys[1..])
    ensures |keys| == 1 ==> s.secondary - {src} == s.secondary
  {
    assert BlockOk(s, src);
    assert keys == [keys[0]] + keys[1..];
    assert Elems(keys) == {keys[0]} + Elems(keys[1..]);
    assert keys[0] !in keys[1..];
    if src in s.secondary {
      var k :| k in s.secondary[src];
      assert k in Elems(keys) && k != keys[0];
    }
    if |keys| > 1 {
      assert keys[1] in Elems(keys) && keys[1] != keys[0];
    }
  }

  lemma MovedEntry(s: State, src: nat, k: Key)
    requires Coherent(s) && src < |s.blocks|
    ensures k in KeysOf(s, src) ==> k in s.index && IndexOf(RemoveAll(s, {src}), k) == Drop(s.index[k], {src})
    ensures k !in KeysOf(s, src) ==>
              (k in RemoveAll(s, {src}).index <==> k in s.index) && IndexOf(RemoveAll(s, {src}), k) == IndexOf(s, k)
  {
    assert src in IndexOf(s, k) <==> k in KeysOf(s, src);
    RemoveAllKeys(s, {src});
    if k !in KeysOf(s, src) {
      DropNothing(IndexOf(s, k), {src});
    }
  }

  lemma MoveSound(s: State, src: nat, dst: nat)
    requires Sound(s) && src < |s.blocks| && 0 < dst < |s.blocks| && KeysOf(s, dst) == {}
    ensures Sound(MoveHashes(s, src, dst))
    ensures forall k :: |IndexOf(MoveHashes(s, src, dst), k)| == |IndexOf(s, k)|
  {
    Open(s);
    MoveHashesInv(s, src, dst);
    forall k
      ensures |IndexOf(MoveHashes(s, src, dst), k)| == |IndexOf(s, k)|
    {
      MoveHashesIndex(s, src, dst, k);
    }
  }

  lemma NothingToMove(s: State, src: nat, dst: nat)
    requires SoundKeys(s) && src < |s.blocks| && dst < |s.blocks| && KeysOf(s, src) == {}
    ensures RemoveAll(s, {src}) == s && MoveHashes(s, src, dst) == s
  {
    NothingToRemove(s, src);
  }

  // What holds between taking the keys off one block and attaching them to the other.
  lemma MoveStart(s: State, src: nat, dst: nat, keys: seq<Key>)
    requires SoundKeys(s) && src < |s.blocks| && dst < |s.blocks| && Elems(keys) == KeysOf(s, src) && keys != []
    ensures SoundKeys(RemoveAll(s, {src})) && s.blocks[src].hash.Some? && s.blocks[src].numTokens.Some?
    ensures forall k :: k in keys ==> k in KeysOf(s, src)
  {
    RemovedSoundKeys(s, {src});
    OpenKeys(s);
    assert BlockOk(s, src);
    assert keys[0] in Elems(keys);
    assert forall k :: k in keys ==> k in Elems(keys);
  }

  // ---- Reset and protection ----

  lemma ResetSound(s: State)
    requires Sound(s)
    ensures Sound(ResetCache(s))
  {
    Open(s);
    ResetInv(s);
  }

  // The first n blocks reset.
  function ResetUpTo(s: State, n: nat): State {
    s.(blocks := seq(|s.blocks|, i requires 0 <= i < |s.blocks| => if i < n then s.blocks[i].Reset() else s.blocks[i]))
  }

  lemma ResetNone(s: State)
    ensures ResetUpTo(s, 0) == s
  {
    assert ResetUpTo(s, 0).blocks == s.blocks;
  }

  lemma ResetOneMore(s: State, n: nat)
    requires n < |s.blocks|
    ensures var t := ResetUpTo(s, n);
      ResetUpTo(s, n + 1) == t.(blocks := t.blocks[n := t.blocks[n].Reset()])
  {
    var t := ResetUpTo(s, n);
    assert ResetUpTo(s, n + 1).blocks == t.blocks[n := t.blocks[n].Reset()];
  }

  lemma ResetAssembled(s: State)
    requires |s.blocks| - |s.free| == 1
    ensures ResetUpTo(s.(index := map[], secondary := map[]), |s.blocks|).(nextExpiry := None) == ResetCache(s)
  {
    assert ResetUpTo(s.(index := map[], secondary := map[]), |s.blocks|).blocks == ResetCache(s).blocks;
  }

  function Later(a: int, b: int): int {
    if a < b then b else a
  }

  lemma ProtectNone(s: State, until: int)
    ensures Protect(s, [], until) == s
  {
    assert Protect(s, [], until).blocks == s.blocks;
  }

  lemma ProtectOneMore(s: State, ids: seq<nat>, until: int, b: nat)
    requires b < |s.blocks|
    ensures var t := Protect(s, ids, until);
      Protect(s, ids + [b], until) ==
        t.(blocks := t.blocks[b := t.blocks[b].(protectedUntil := Later(t.blocks[b].protectedUntil, until))])
  {
    var t := Protect(s, ids, until);
    var u := t.blocks[b := t.blocks[b].(protectedUntil := Later(t.blocks[b].protectedUntil, until))];
    forall i | 0 <= i < |s.blocks|
      ensures Protect(s, ids + [b], until).blocks[i] == u[i]
    {
      assert i in ids + [b] <==> i in ids || i == b;
    }
    assert Protect(s, ids + [b], until).blocks == u;
  }

  lemma ProtectSound(s: State, ids: seq<nat>, until: int)
    requires Sound(s)
    ensures Sound(Protect(s, ids, until))
    ensures forall k :: IndexOf(Protect(s, ids, until), k) == IndexOf(s, k)
  {
    Open(s);
    ProtectInv(s, ids, until);
  }

  lemma EvictSound(s: State, gone: set<nat>)
    requires Sound(s)
    ensures Sound(RemoveAll(s, gone))
  {
    Open(s);
    RemoveAllInv(s, gone);
  }
}
