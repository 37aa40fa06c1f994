// The block pool's state as plain values, and each operation as a function on it.
// The classes in BlockPool.dfy are proved to compute exactly these functions; the
// guarantees of the pool are proved about the functions, in PoolInvariants.dfy and
// PoolRuns.dfy.
module PoolModel {
  import opened Wrappers
  import opened Seqs
  import opened BlockKeys
  import opened HashViews

  const NULL_BLOCK: nat := 0

  // The metadata of one block; the free-list links are kept apart, in FreeQueue.dfy.
  datatype BlockMeta = BlockMeta(
    refCnt: int, hash: Option<Key>, numTokens: Option<nat>, idleSince: Option<int>, protectedUntil: int)
  {
    function Reset(): BlockMeta {
      this.(hash := None, numTokens := None, idleSince := None, protectedUntil := 0)
    }
  }

  const FreshBlock := BlockMeta(0, None, None, None, 0)

  datatype Config = Config(caching: bool, timeout: Option<int>) {
    predicate Ok() {
      timeout.Some? ==> caching && timeout.value >= 1
    }
  }

  // Blocks are named by their ids. free lists the free queue from head to tail, index maps
  // a key to the blocks cached under it (oldest first), secondary holds the keys of a block
  // beside its primary one, and clock is the largest time read so far.
  datatype State = State(
    blocks: seq<BlockMeta>, free: seq<nat>, index: map<Key, seq<nat>>, secondary: map<nat, set<Key>>,
    nextExpiry: Option<int>, clock: int)

  function Init(n: nat): State
    requires n > 0
  {
    State(seq(n, _ => FreshBlock), seq(n - 1, i requires 0 <= i => i + 1), map[], map[], None, 0)
  }

  // All keys of a block: the primary one and the secondary ones.
  function KeysOf(s: State, b: nat): set<Key>
    requires b < |s.blocks|
  {
    (if s.blocks[b].hash.Some? then {s.blocks[b].hash.value} else {}) +
    (if b in s.secondary then s.secondary[b] else {})
  }

  predicate InRange(s: State, ids: seq<nat>) {
    forall i :: 0 <= i < |ids| ==> ids[i] < |s.blocks|
  }

  function IndexOf(s: State, k: Key): seq<nat> {
    if k in s.index then s.index[k] else []
  }

  // ---- Keys: attach, remove, move ----

  // Remove every key of every block in gone.
  function RemoveAll(s: State, gone: set<nat>): State {
    s.(blocks := seq(|s.blocks|, i requires 0 <= i < |s.blocks| =>
                       if i in gone && s.blocks[i].hash.Some? then s.blocks[i].Reset() else s.blocks[i]),
       index := map k | k in s.index && Drop(s.index[k], gone) != [] :: Drop(s.index[k], gone),
       secondary := s.secondary - gone)
  }

  function InsertHash(s: State, b: nat, key: Key, tokens: nat): State
    requires b < |s.blocks|
  {
    if s.blocks[b].hash == Some(key) || b in IndexOf(s, key) then s
    else if s.blocks[b].hash.None? then
      s.(blocks := s.blocks[b := s.blocks[b].(hash := Some(key), numTokens := Some(tokens))],
         index := s.index[key := IndexOf(s, key) + [b]])
    else
      s.(secondary := s.secondary[b := (if b in s.secondary then s.secondary[b] else {}) + {key}],
         index := s.index[key := IndexOf(s, key) + [b]])
  }

  function MoveHashes(s: State, src: nat, dst: nat): State
    requires src < |s.blocks| && dst < |s.blocks|
  {
    var keys := KeysOf(s, src);
    if keys == {} then s
    else
      s.(blocks := s.blocks[src := s.blocks[src].Reset()]
                           [dst := s.blocks[dst].(hash := s.blocks[src].hash, numTokens := s.blocks[src].numTokens)],
         index := map k | k in s.index :: if k in keys then Drop(s.index[k], {src}) + [dst] else s.index[k],
         secondary := if src in s.secondary then (s.secondary - {src})[dst := s.secondary[src]] else s.secondary)
  }

  // One block to be cached: its key and the number of prefix tokens the key stands for.
  datatype Item = Item(block: nat, key: Key, tokens: nat)

  predicate ItemReady(s: State, it: Item) {
    && it.block < |s.blocks|
    && var blk := s.blocks[it.block];
       blk.hash.Some? ==>
         && blk.numTokens.Some?
         && (|| blk.numTokens.value < it.tokens
             || (&& blk.numTokens.value == it.tokens
                 && GetBlockHash(blk.hash.value) == GetBlockHash(it.key)
                 && GetGroupId(blk.hash.value) != GetGroupId(it.key)))
  }

  // Keys of a shorter prefix give way to the new one; keys of the same boundary are joined.
  function CacheItem(s: State, it: Item): State
    requires ItemReady(s, it)
  {
    var blk := s.blocks[it.block];
    var s1 := if blk.hash.Some? && blk.numTokens.value < it.tokens then RemoveAll(s, {it.block}) else s;
    InsertHash(s1, it.block, it.key, it.tokens)
  }

  predicate ItemsReady(s: State, items: seq<Item>)
    decreases |items|, 0
  {
    items == [] ||
    (ItemsReady(s, items[..|items| - 1]) && ItemReady(CacheItems(s, items[..|items| - 1]), items[|items| - 1]))
  }

  function CacheItems(s: State, items: seq<Item>): State
    requires ItemsReady(s, items)
    decreases |items|, 1
  {
    if items == [] then s else CacheItem(CacheItems(s, items[..|items| - 1]), items[|items| - 1])
  }

  // A cache_full_blocks call: the blocks ids[cached..full] of a request with these hashes.
  datatype Batch = Batch(ids: seq<nat>, hashes: seq<Bytes>, cached: nat, full: nat, blockSize: nat, group: nat,
                         mask: Option<seq<bool>>) {
    predicate Ok() {
      cached < full <= |ids| && full <= |hashes| && group < GROUP_LIMIT
          && (mask.Some? ==> |mask.value| == full - cached)
    }

    // Null blocks and masked-out blocks are passed over.
    predicate Skips(i: nat)
      requires Ok() && cached <= i < full
    {
      ids[i] == NULL_BLOCK || (mask.Some? && !mask.value[i - cached])
    }

    function ItemAt(i: nat): Item
      requires Ok() && cached <= i < full
    {
      Item(ids[i], MakeKey(hashes[i], group), TokensIn(i + 1, blockSize))
    }

    // The items among the blocks before position upTo.
    function Items(upTo: nat): seq<Item>
      requires Ok() && cached <= upTo <= full
    {
      if upTo == cached then []
      else Items(upTo - 1) + if Skips(upTo - 1) then [] else [ItemAt(upTo - 1)]
    }
  }

  function CachePartial(s: State, b: nat, key: Key, tokens: nat): State
    requires b < |s.blocks|
  {
    if b == NULL_BLOCK then s
    else
      var blk := s.blocks[b];
      var already := blk.hash == Some(key) || b in IndexOf(s, key);
      var s1 := if !already && blk.hash.Some? && blk.numTokens.Some? && blk.numTokens.value < tokens
                then RemoveAll(s, {b}) else s;
      InsertHash(s1, b, key, tokens)
  }

  // ---- Ownership: allocate, touch, free ----

  function ProtectedFree(s: State, now: int): set<nat> {
    set b | b in s.free && b < |s.blocks| && s.blocks[b].protectedUntil > now
  }

  // The order in which victims are taken: unprotected blocks first, each part in queue order.
  function VictimOrder(s: State, now: int): seq<nat> {
    Drop(s.free, ProtectedFree(s, now)) + Keep(s.free, ProtectedFree(s, now))
  }

  function Victims(s: State, n: nat, now: int): seq<nat> {
    var order := VictimOrder(s, now);
    if n <= |order| then order[..n] else order
  }

  function ClearProtection(s: State, ids: set<nat>): State {
    s.(blocks := seq(|s.blocks|, i requires 0 <= i < |s.blocks| =>
                       if i in ids then s.blocks[i].(protectedUntil := 0) else s.blocks[i]))
  }

  function AddRef(s: State, ids: set<nat>): State {
    s.(blocks := seq(|s.blocks|, i requires 0 <= i < |s.blocks| =>
                       if i in ids then s.blocks[i].(refCnt := s.blocks[i].refCnt + 1) else s.blocks[i]))
  }

  // Asking for more blocks than are free raises ValueError and changes nothing.
  function GetNew(cfg: Config, s: State, n: nat, now: int): State {
    if n > |s.free| then s.(clock := now)
    else
      var taken := Elems(Victims(s, n, now));
      var s1 := ClearProtection(s.(free := Drop(s.free, taken), clock := now), taken);
      AddRef(if cfg.caching then RemoveAll(s1, taken) else s1, taken)
  }

  // A block nobody holds, other than the null block, is in the queue.
  predicate WasQueued(b: nat, blk: BlockMeta) {
    b != NULL_BLOCK && blk.refCnt == 0
  }

  function Touch(s: State, ids: seq<nat>): State {
    s.(blocks := seq(|s.blocks|, i requires 0 <= i < |s.blocks| =>
                       var blk := s.blocks[i];
                       blk.(refCnt := blk.refCnt + multiset(ids)[i],
                            idleSince := if i in ids && WasQueued(i, blk) then None else blk.idleSince)),
       free := Drop(s.free, Elems(ids)))
  }

  // The blocks whose count reaches zero while ids are released one by one, in that order.
  function Released(s: State, ids: seq<nat>): seq<nat>
    requires InRange(s, ids)
  {
    if ids == [] then []
    else
      var b := ids[|ids| - 1];
      Released(s, ids[..|ids| - 1]) +
      if b != NULL_BLOCK && s.blocks[b].refCnt == multiset(ids)[b] then [b] else []
  }

  // Released blocks that go to the tail of the queue; the others go to its head.
  function KeptWarm(cfg: Config, s: State): set<nat> {
    set b: nat | b < |s.blocks| && (s.blocks[b].hash.Some? || !cfg.caching)
  }

  function Earlier(a: Option<int>, t: int): Option<int> {
    if a.None? || t < a.value then Some(t) else a
  }

  function Free(cfg: Config, s: State, ids: seq<nat>, now: int): State
    requires InRange(s, ids)
  {
    var released := Released(s, ids);
    var warm, cold := Keep(released, KeptWarm(cfg, s)), Drop(released, KeptWarm(cfg, s));
    var timed := cfg.timeout.Some? && warm != [];
    s.(blocks := seq(|s.blocks|, i requires 0 <= i < |s.blocks| =>
                       var blk := s.blocks[i];
                       blk.(refCnt := blk.refCnt - multiset(ids)[i],
                            idleSince := if timed && i in warm then Some(now) else blk.idleSince)),
       free := cold + s.free + warm,
       nextExpiry := if timed then Earlier(s.nextExpiry, now + cfg.timeout.value) else s.nextExpiry,
       clock := now)
  }

  // ---- Expiry, reset, protection ----

  predicate Due(timeout: int, blk: BlockMeta, now: int) {
    blk.hash.Some? && blk.protectedUntil <= now && blk.idleSince.Some? && blk.idleSince.value + timeout <= now
  }

  function DueFree(s: State, timeout: int, now: int): set<nat> {
    set b | b in s.free && b < |s.blocks| && Due(timeout, s.blocks[b], now)
  }

  // The bound left by a scan: protection deadlines and pending expiries of the blocks seen.
  function NextExpiry(s: State, timeout: int, now: int, ids: seq<nat>): Option<int> {
    if ids == [] then None
    else
      var rest, b := NextExpiry(s, timeout, now, ids[..|ids| - 1]), ids[|ids| - 1];
      if b >= |s.blocks| || s.blocks[b].hash.None? then rest
      else
        var blk := s.blocks[b];
        if blk.protectedUntil > now then Earlier(rest, blk.protectedUntil)
        else if blk.idleSince.Some? && blk.idleSince.value + timeout > now then
          Earlier(rest, blk.idleSince.value + timeout)
        else rest
  }

  predicate ScanNeeded(cfg: Config, s: State, now: int) {
    cfg.timeout.Some? && s.nextExpiry.Some? && s.nextExpiry.value <= now
  }

  function Expire(cfg: Config, s: State, now: int): State {
    if !ScanNeeded(cfg, s, now) then s.(clock := now)
    else
      var due := DueFree(s, cfg.timeout.value, now);
      RemoveAll(s.(free := Keep(s.free, due) + Drop(s.free, due),
                   nextExpiry := NextExpiry(s, cfg.timeout.value, now, s.free),
                   clock := now),
                due)
  }

  // Refused while any block but the null block is in use.
  function ResetCache(s: State): State {
    if |s.blocks| - |s.free| != 1 then s
    else
      s.(blocks := seq(|s.blocks|, i requires 0 <= i < |s.blocks| => s.blocks[i].Reset()),
         index := map[], secondary := map[], nextExpiry := None)
  }

  // What the scheduler does from outside: a deadline is only ever raised.
  function Protect(s: State, ids: seq<nat>, until: int): State {
    s.(blocks := seq(|s.blocks|, i requires 0 <= i < |s.blocks| =>
                       if i in ids && s.blocks[i].protectedUntil < until
                       then s.blocks[i].(protectedUntil := until) else s.blocks[i]))
  }
}
