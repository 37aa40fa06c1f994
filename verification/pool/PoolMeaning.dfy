// What the operations do, said block by block and key by key, without the functions that the
// methods are proved to compute.
module PoolMeaning {
  import opened Wrappers
  import opened Seqs
  import opened BlockKeys
  import opened HashViews
  import opened PoolModel
  import opened PoolInvariants
  import opened PoolTiming
  import opened Events
  import opened PoolSteps
  import opened CacheSteps

  // ---- Allocation ----

  // Unprotected blocks come before protected ones, and each kind in the order of the queue.
  lemma VictimsInOrder(s: State, now: int, i: nat, j: nat) returns (x: nat, y: nat)
    requires Owned(s) && i < j < |VictimOrder(s, now)|
    ensures |VictimOrder(s, now)| == |s.free| && x < |s.free| && y < |s.free|
    ensures VictimOrder(s, now)[i] == s.free[x] < |s.blocks| && VictimOrder(s, now)[j] == s.free[y] < |s.blocks|
    ensures s.blocks[s.free[x]].protectedUntil > now ==> s.blocks[s.free[y]].protectedUntil > now
    ensures (s.blocks[s.free[x]].protectedUntil > now <==> s.blocks[s.free[y]].protectedUntil > now) ==> x < y
  {
    VictimOrderIsPartition(s, now);
    x, y := PartInOrder(s.free, ProtectedFree(s, now), i, j);
  }

  // The same of any list in which some numbers are put behind the others.
  lemma PartInOrder(s: seq<nat>, late: set<nat>, i: nat, j: nat) returns (x: nat, y: nat)
    requires i < j < |Drop(s, late) + Keep(s, late)|
    ensures x < |s| && (Drop(s, late) + Keep(s, late))[i] == s[x]
    ensures y < |s| && (Drop(s, late) + Keep(s, late))[j] == s[y]
    ensures s[x] in late ==> s[y] in late
    ensures (s[x] in late <==> s[y] in late) ==> x < y
  {
    var u: seq<nat>, w: seq<nat> := Drop(s, late), Keep(s, late);
    DropMembers(s, late);
    KeepMembers(s, late);
    if j < |u| {
      x, y := DropOrder(s, late, i, j);
      assert u[i] in u && u[j] in u;
    } else if i >= |u| {
      x, y := KeepOrder(s, late, i - |u|, j - |u|);
      assert w[i - |u|] in w && w[j - |u|] in w;
    } else {
      assert u[i] in u && w[j - |u|] in w;
      x :| 0 <= x < |s| && s[x] == u[i];
      y :| 0 <= y < |s| && s[y] == w[j - |u|];
    }
  }

  // A selection keeps the order of what it is taken from.
  lemma {:induction false} KeepOrder(s: seq<nat>, keep: set<nat>, i: nat, j: nat) returns (x: nat, y: nat)
    requires i < j < |Keep(s, keep)|
    ensures x < y < |s| && s[x] == Keep(s, keep)[i] && s[y] == Keep(s, keep)[j]
  {
    if s[0] !in keep {
      x, y := KeepOrder(s[1..], keep, i, j);
      x, y := x + 1, y + 1;
    } else if i > 0 {
      x, y := KeepOrder(s[1..], keep, i - 1, j - 1);
      x, y := x + 1, y + 1;
    } else {
      x := 0;
      assert Keep(s[1..], keep)[j - 1] in Keep(s[1..], keep);
      KeepMembers(s[1..], keep);
      y :| 1 <= y < |s| && s[1..][y - 1] == Keep(s[1..], keep)[j - 1];
    }
  }

  lemma {:induction false} DropOrder(s: seq<nat>, gone: set<nat>, i: nat, j: nat) returns (x: nat, y: nat)
    requires i < j < |Drop(s, gone)|
    ensures x < y < |s| && s[x] == Drop(s, gone)[i] && s[y] == Drop(s, gone)[j]
  {
    if s[0] in gone {
      x, y := DropOrder(s[1..], gone, i, j);
      x, y := x + 1, y + 1;
    } else if i > 0 {
      x, y := DropOrder(s[1..], gone, i - 1, j - 1);
      x, y := x + 1, y + 1;
    } else {
      x := 0;
      assert Drop(s[1..], gone)[j - 1] in Drop(s[1..], gone);
      DropMembers(s[1..], gone);
      y :| 1 <= y < |s| && s[1..][y - 1] == Drop(s[1..], gone)[j - 1];
    }
  }

  // ---- Release ----

  // Blocks whose last holder goes return to the queue: with caching on, those without a hash to
  // its head, all others to its tail, each kind in the order in which its holders ran out.
  lemma ReleasedToQueue(cfg: Config, s: State, ids: seq<nat>, now: int) returns (cold: seq<nat>, warm: seq<nat>)
    requires Owned(s) && InRange(s, ids)
    ensures Free(cfg, s, ids, now).free == cold + s.free + warm
    ensures forall b :: b in cold || b in warm ==> b < |s.blocks|
    ensures forall b: nat :: b in cold <==>
              && 0 < b < |s.blocks| && 0 < s.blocks[b].refCnt <= multiset(ids)[b]
              && cfg.caching && s.blocks[b].hash.None?
    ensures forall b: nat :: b in warm <==>
              && 0 < b < |s.blocks| && 0 < s.blocks[b].refCnt <= multiset(ids)[b]
              && !(cfg.caching && s.blocks[b].hash.None?)
    ensures Distinct(cold) && Distinct(warm)
    ensures forall i, j :: 0 <= i < j < |cold| ==> RunsOutFirst(s, ids, cold[i], cold[j])
    ensures forall i, j :: 0 <= i < j < |warm| ==> RunsOutFirst(s, ids, warm[i], warm[j])
  {
    var released, warmth := Released(s, ids), KeptWarm(cfg, s);
    cold, warm := Drop(released, warmth), Keep(released, warmth);
    ReleasedMembers(s, ids);
    DropMembers(released, warmth);
    KeepMembers(released, warmth);
    DropDistinct(released, warmth);
    KeepDistinct(released, warmth);
    forall i, j | 0 <= i < j < |cold|
      ensures RunsOutFirst(s, ids, cold[i], cold[j])
    {
      var x, y := DropOrder(released, warmth, i, j);
      ReleasedInOrder(s, ids, x, y);
    }
    forall i, j | 0 <= i < j < |warm|
      ensures RunsOutFirst(s, ids, warm[i], warm[j])
    {
      var x, y := KeepOrder(released, warmth, i, j);
      ReleasedInOrder(s, ids, x, y);
    }
  }

  // Every mention takes one holder away. With a timeout, what goes to the tail is idle from now
  // on, and the next scan is due no later than its expiry.
  lemma ReleasedTimes(cfg: Config, s: State, ids: seq<nat>, now: int, b: nat) returns (warm: set<nat>)
    requires InRange(s, ids) && b < |s.blocks|
    ensures forall c: nat :: c in warm <==>
              && 0 < c < |s.blocks| && 0 < s.blocks[c].refCnt <= multiset(ids)[c]
              && !(cfg.caching && s.blocks[c].hash.None?)
    ensures var s' := Free(cfg, s, ids, now);
      && |s'.blocks| == |s.blocks| && s'.clock == now && s'.index == s.index && s'.secondary == s.secondary
      && s'.blocks[b] == s.blocks[b].(refCnt := s.blocks[b].refCnt - multiset(ids)[b],
                                      idleSince := if cfg.timeout.Some? && b in warm then Some(now)
                                                   else s.blocks[b].idleSince)
      && (cfg.timeout.None? || warm == {} ==> s'.nextExpiry == s.nextExpiry)
      && (cfg.timeout.Some? && warm != {} ==>
            var expiry := now + cfg.timeout.value;
            s'.nextExpiry == Some(if s.nextExpiry.Some? && s.nextExpiry.value < expiry then s.nextExpiry.value
                                  else expiry))
  {
    var kept: seq<nat>;
    kept, warm := WarmOnes(cfg, s, ids);
    assert kept != [] ==> kept[0] in warm;
    assert b in kept <==> b in warm;
  }

  lemma WarmOnes(cfg: Config, s: State, ids: seq<nat>) returns (kept: seq<nat>, warm: set<nat>)
    requires InRange(s, ids)
    ensures kept == Keep(Released(s, ids), KeptWarm(cfg, s)) && warm == Elems(kept)
    ensures forall c: nat :: c in warm <==>
              && 0 < c < |s.blocks| && 0 < s.blocks[c].refCnt <= multiset(ids)[c]
              && !(cfg.caching && s.blocks[c].hash.None?)
  {
    kept := Keep(Released(s, ids), KeptWarm(cfg, s));
    warm := Elems(kept);
    ReleasedMembers(s, ids);
    KeepMembers(Released(s, ids), KeptWarm(cfg, s));
  }

  // At some point of the release b has no holder left while c still has one.
  ghost predicate RunsOutFirst(s: State, ids: seq<nat>, b: nat, c: nat) {
    && b < |s.blocks| && c < |s.blocks|
    && exists m :: 0 <= m <= |ids|
                   && CountIn(ids, m, b) >= s.blocks[b].refCnt && CountIn(ids, m, c) < s.blocks[c].refCnt
  }

  // How often b is among the first m ids.
  function CountIn(ids: seq<nat>, m: nat, b: nat): nat
    requires m <= |ids|
  {
    multiset(ids[..m])[b]
  }

  lemma {:induction false} ReleasedInOrder(s: State, ids: seq<nat>, x: nat, y: nat)
    requires Owned(s) && InRange(s, ids) && x < y < |Released(s, ids)|
    ensures RunsOutFirst(s, ids, Released(s, ids)[x], Released(s, ids)[y])
  {
    var front, last := ids[..|ids| - 1], ids[|ids| - 1];
    var n := |front|;
    assert ids == front + [last];
    var all, some := Released(s, ids), Released(s, front);
    ReleasedMembers(s, ids);
    ReleasedMembers(s, front);
    assert all[x] in all && all[y] in all;
    if y < |some| {
      ReleasedInOrder(s, front, x, y);
      var m :| 0 <= m <= n && CountIn(front, m, all[x]) >= s.blocks[all[x]].refCnt
               && CountIn(front, m, all[y]) < s.blocks[all[y]].refCnt;
      assert front[..m] == ids[..m];
      assert CountIn(ids, m, all[x]) == CountIn(front, m, all[x]);
      assert CountIn(ids, m, all[y]) == CountIn(front, m, all[y]);
    } else {
      assert all[y] == last && all[x] == some[x] && some[x] in some;
      assert ids[..n] == front;
      assert CountIn(ids, n, all[x]) == multiset(front)[all[x]];
      assert CountIn(ids, n, last) == multiset(front)[last] == multiset(ids)[last] - 1;
    }
  }

  // Of the unprotected blocks, those at the front of the queue are taken first.
  lemma FrontFirst(s: State, later: int, front: seq<nat>, i: nat, j: nat)
    requires Owned(s) && i < j < |VictimOrder(s, later)| && front <= s.free && VictimOrder(s, later)[j] in front
    requires forall k :: k in [VictimOrder(s, later)[i], VictimOrder(s, later)[j]] ==>
               k < |s.blocks| && s.blocks[k].protectedUntil <= later
    ensures VictimOrder(s, later)[i] in front
  {
    var order := VictimOrder(s, later);
    var x, y := VictimsInOrder(s, later, i, j);
    var z :| 0 <= z < |front| && front[z] == order[j];
    assert s.free[z] == order[j] && s.free[y] == order[j];
    assert z == y;
    assert s.free[x] == front[x] && front[x] in front;
  }

  lemma FrontVictims(s: State, n: nat, later: int, front: seq<nat>, b: nat, c: nat)
    requires Owned(s) && n <= |s.free| && front <= s.free && b in front && c !in front
    requires b < |s.blocks| && s.blocks[b].protectedUntil <= later
    requires c < |s.blocks| && s.blocks[c].protectedUntil <= later && c in Victims(s, n, later)
    ensures b in Victims(s, n, later)
  {
    VictimOrderIsPartition(s, later);
    var order := VictimOrder(s, later);
    assert b in s.free && b in order;
    var j :| 0 <= j < |order| && order[j] == b;
    var i :| 0 <= i < |order| && i < n && order[i] == c;
    if i < j {
      FrontFirst(s, later, front, i, j);
      assert false;
    }
  }

  // So with caching on, a released block without a hash is taken before any cached one that is
  // not protected.
  lemma UselessTakenFirst(cfg: Config, s: State, ids: seq<nat>, now: int, n: nat, later: int, b: nat, c: nat)
    requires Inv(s) && InRange(s, ids) && NoOverFree(s, ids) && cfg.caching
    requires 0 < b < |s.blocks| && 0 < s.blocks[b].refCnt <= multiset(ids)[b] && s.blocks[b].hash.None?
    requires c < |s.blocks| && s.blocks[c].hash.Some?
    ensures var s' := Free(cfg, s, ids, now);
      (&& s.blocks[b].protectedUntil <= later && s.blocks[c].protectedUntil <= later
       && n <= |s'.free| && c in Victims(s', n, later)) ==> b in Victims(s', n, later)
  {
    var s' := Free(cfg, s, ids, now);
    FreeInv(cfg, s, ids, now);
    var cold, warm := ReleasedToQueue(cfg, s, ids, now);
    if s.blocks[b].protectedUntil <= later && s.blocks[c].protectedUntil <= later && n <= |s'.free|
       && c in Victims(s', n, later) {
      assert s'.blocks[b].protectedUntil == s.blocks[b].protectedUntil;
      assert s'.blocks[c].protectedUntil == s.blocks[c].protectedUntil;
      assert b in cold && c !in cold;
      FrontVictims(s', n, later, cold, b, c);
    }
  }

  // Every mention gives one more holder; a block that was free leaves the queue and is idle no more.
  lemma TouchMeans(s: State, ids: seq<nat>)
    requires Inv(s) && InRange(s, ids)
    ensures var s' := PoolModel.Touch(s, ids);
      && s' == s.(blocks := s'.blocks, free := s'.free) && |s'.blocks| == |s.blocks|
      && (forall b: nat :: b in s'.free <==> b in s.free && b !in ids)
      && forall b: nat :: b < |s.blocks| ==>
           s'.blocks[b] == s.blocks[b].(refCnt := s.blocks[b].refCnt + multiset(ids)[b],
                                        idleSince := if b in ids && b in s.free then None else s.blocks[b].idleSince)
  {
    DropMembers(s.free, Elems(ids));
  }

  // ---- Caching ----

  // One block cached: keys for a shorter prefix are replaced, keys for the same one joined.
  lemma CachedOnce(s: State, it: Item)
    requires Inv(s) && ItemReady(s, it) && it.block != NULL_BLOCK
    ensures var s', b := CacheItem(s, it), it.block;
      && |s'.blocks| == |s.blocks|
      && (s.blocks[b].hash.None? || s.blocks[b].numTokens.value < it.tokens ==>
            KeysOf(s', b) == {it.key} && s'.blocks[b].hash == Some(it.key) && s'.blocks[b].numTokens == Some(it.tokens))
      && (s.blocks[b].hash.Some? && s.blocks[b].numTokens.value == it.tokens ==>
            && KeysOf(s', b) == KeysOf(s, b) + {it.key}
            && s'.blocks[b].hash == s.blocks[b].hash && s'.blocks[b].numTokens == s.blocks[b].numTokens)
      && (forall c: nat :: c < |s.blocks| && c != b ==> KeysOf(s', c) == KeysOf(s, c) && s'.blocks[c] == s.blocks[c])
      && s'.blocks[b].refCnt == s.blocks[b].refCnt && s'.free == s.free
  {
    var b := it.block;
    assert BlockOk(s, b);
    if s.blocks[b].hash.Some? && s.blocks[b].numTokens.value < it.tokens {
      Emptied(s, b);
      Joined(RemoveAll(s, {b}), b, it.key, it.tokens);
    } else {
      Joined(s, b, it.key, it.tokens);
    }
  }

  // A block loses its keys.
  lemma Emptied(s: State, b: nat)
    requires Coherent(s) && b < |s.blocks| && s.blocks[b].hash.Some?
    ensures var s' := RemoveAll(s, {b});
      && Coherent(s') && |s'.blocks| == |s.blocks| && s'.free == s.free
      && s'.blocks[b].hash.None? && s'.blocks[b].refCnt == s.blocks[b].refCnt && KeysOf(s', b) == {}
      && forall c: nat :: c < |s.blocks| && c != b ==> KeysOf(s', c) == KeysOf(s, c) && s'.blocks[c] == s.blocks[c]
  {
    RemoveAllKeys(s, {b});
  }

  // A block gains a key, as its first one or as one more.
  lemma Joined(s: State, b: nat, key: Key, tokens: nat)
    requires Coherent(s) && b < |s.blocks|
    ensures var s' := InsertHash(s, b, key, tokens);
      && |s'.blocks| == |s.blocks| && s'.free == s.free
      && KeysOf(s', b) == KeysOf(s, b) + {key} && s'.blocks[b].refCnt == s.blocks[b].refCnt
      && (s.blocks[b].hash.None? ==>
            && KeysOf(s', b) == {key} && s'.blocks[b].hash == Some(key) && s'.blocks[b].numTokens == Some(tokens))
      && (s.blocks[b].hash.Some? ==> s'.blocks[b] == s.blocks[b])
      && forall c: nat :: c < |s.blocks| && c != b ==> KeysOf(s', c) == KeysOf(s, c) && s'.blocks[c] == s.blocks[c]
  {
    InsertHashKeys(s, b, key, tokens);
    assert BlockOk(s, b);
    assert b in IndexOf(s, key) <==> key in KeysOf(s, b);
  }

  // A partial entry: nothing happens to a block that has the key; keys for a shorter prefix are
  // replaced, any others joined.
  lemma CachedPartially(s: State, b: nat, key: Key, tokens: nat)
    requires Inv(s) && 0 < b < |s.blocks|
    ensures var s' := CachePartial(s, b, key, tokens);
      && |s'.blocks| == |s.blocks|
      && (key in KeysOf(s, b) ==> s' == s)
      && (s.blocks[b].hash.Some? ==> s.blocks[b].numTokens.Some?)
      && (key !in KeysOf(s, b) && (s.blocks[b].hash.None? || s.blocks[b].numTokens.value < tokens) ==>
            KeysOf(s', b) == {key} && s'.blocks[b].hash == Some(key) && s'.blocks[b].numTokens == Some(tokens))
      && (key !in KeysOf(s, b) && s.blocks[b].hash.Some? && s.blocks[b].numTokens.value >= tokens ==>
            && KeysOf(s', b) == KeysOf(s, b) + {key}
            && s'.blocks[b].hash == s.blocks[b].hash && s'.blocks[b].numTokens == s.blocks[b].numTokens)
      && (forall c: nat :: c < |s.blocks| && c != b ==> KeysOf(s', c) == KeysOf(s, c) && s'.blocks[c] == s.blocks[c])
      && s'.blocks[b].refCnt == s.blocks[b].refCnt && s'.free == s.free
  {
    assert BlockOk(s, b);
    assert b in IndexOf(s, key) <==> key in KeysOf(s, b);
    if key !in KeysOf(s, b) {
      if s.blocks[b].hash.Some? && s.blocks[b].numTokens.value < tokens {
        Emptied(s, b);
        Joined(RemoveAll(s, {b}), b, key, tokens);
      } else {
        Joined(s, b, key, tokens);
      }
    }
  }

  // The items of a call are its blocks in order, but for null blocks and those masked out; each
  // under its own hash, with the number of tokens up to its end. at says where they come from.
  lemma BatchItems(c: Batch, upTo: nat) returns (at: seq<nat>)
    requires c.Ok() && c.cached <= upTo <= c.full
    ensures |at| == |c.Items(upTo)|
    ensures forall i, j :: 0 <= i < j < |at| ==> at[i] < at[j]
    ensures forall i :: i in at <==>
              && c.cached <= i < upTo && c.ids[i] != NULL_BLOCK
              && (c.mask.Some? ==> c.mask.value[i - c.cached])
    ensures forall i :: 0 <= i < |at| ==>
              && at[i] < c.full
              && c.Items(upTo)[i] == Item(c.ids[at[i]], MakeKey(c.hashes[at[i]], c.group), (at[i] + 1) * c.blockSize)
  {
    at := Places(c, upTo);
    forall i | 0 <= i < |at|
      ensures TokensIn(at[i] + 1, c.blockSize) == (at[i] + 1) * c.blockSize
    {
      TokensInIs(at[i] + 1, c.blockSize);
    }
    forall i | 0 <= i < |at|
      ensures at[i] in at
    {
    }
  }

  lemma {:induction false} Places(c: Batch, upTo: nat) returns (at: seq<nat>)
    requires c.Ok() && c.cached <= upTo <= c.full
    ensures |at| == |c.Items(upTo)| && forall i, j :: 0 <= i < j < |at| ==> at[i] < at[j]
    ensures forall i :: i in at <==> c.cached <= i < upTo && !c.Skips(i)
    ensures forall i :: 0 <= i < |at| ==> c.cached <= at[i] < upTo && c.Items(upTo)[i] == c.ItemAt(at[i])
    decreases upTo
  {
    if upTo == c.cached {
      at := [];
    } else {
      var last: nat := upTo - 1;
      at := Places(c, last);
      if !c.Skips(last) {
        at := at + [last];
      }
    }
  }

  // What the call announces: the hashes of exactly those blocks, the hash of the block before
  // the first as their parent, and the token range of all blocks passed over.
  lemma AnnouncedBatch(c: Batch) returns (at: seq<nat>)
    requires c.Ok()
    ensures forall i, j :: 0 <= i < j < |at| ==> at[i] < at[j]
    ensures forall i :: i in at <==>
              && c.cached <= i < c.full && c.ids[i] != NULL_BLOCK
              && (c.mask.Some? ==> c.mask.value[i - c.cached])
    ensures var e := StoredEvent(c);
      && e.BlockStored? && |e.hashes| == |at|
      && (forall i :: 0 <= i < |at| ==> at[i] < c.full && e.hashes[i] == c.hashes[at[i]])
      && e.parent == (if c.cached > 0 then Some(c.hashes[c.cached - 1]) else None)
      && e.startToken == c.cached * c.blockSize && e.endToken == c.full * c.blockSize
      && e.blockSize == c.blockSize && e.group == c.group
  {
    at := BatchItems(c, c.full);
    TokensInIs(c.cached, c.blockSize);
    TokensInIs(c.full, c.blockSize);
    forall i | 0 <= i < |at|
      ensures at[i] < c.full && StoredEvent(c).hashes[i] == c.hashes[at[i]]
    {
      KeyRoundTrip(c.hashes[at[i]], c.group);
    }
  }

  // ---- Expiry, reset, protection ----

  // The blocks that expire go to the head of the queue; nothing else moves.
  lemma ExpiredToHead(cfg: Config, s: State, now: int) returns (due: set<nat>)
    requires Inv(s) && TimingOk(cfg, s) && cfg.timeout.Some? && s.clock <= now
    ensures forall b: nat :: b in due <==>
              && b in s.free && b < |s.blocks| && s.blocks[b].hash.Some? && s.blocks[b].idleSince.Some?
              && s.blocks[b].idleSince.value + cfg.timeout.value <= now && s.blocks[b].protectedUntil <= now
    ensures Expire(cfg, s, now).free == Keep(s.free, due) + Drop(s.free, due)
  {
    due := DueFree(s, cfg.timeout.value, now);
    if !ScanNeeded(cfg, s, now) {
      forall b | b in s.free
        ensures b !in due
      {
        assert Timed(cfg.timeout.value, s, b);
      }
      KeepNothing(s.free, due);
      DropNothing(s.free, due);
      assert [] + s.free == s.free;
    }
  }

  // The bound left by a scan is the end of somebody's protection, or somebody's expiry.
  lemma {:induction false} BoundAttained(s: State, timeout: int, now: int, ids: seq<nat>)
    requires InRange(s, ids) && NextExpiry(s, timeout, now, ids).Some?
    ensures var t := NextExpiry(s, timeout, now, ids).value;
      && t > now
      && exists b :: b in ids && s.blocks[b].hash.Some?
                     && if s.blocks[b].protectedUntil > now then t == s.blocks[b].protectedUntil
                        else s.blocks[b].idleSince.Some? && t == s.blocks[b].idleSince.value + timeout
  {
    var front, last := ids[..|ids| - 1], ids[|ids| - 1];
    assert last in ids;
    if NextExpiry(s, timeout, now, front).Some? {
      BoundAttained(s, timeout, now, front);
    }
  }

  lemma {:induction false} KeepNothing(s: seq<nat>, keep: set<nat>)
    requires forall x :: x in s ==> x !in keep
    ensures Keep(s, keep) == []
  {
    if s != [] {
      KeepNothing(s[1..], keep);
    }
  }

  // With all blocks but the null block free nothing remains cached; else nothing changes.
  lemma ResetMeans(s: State)
    requires Inv(s)
    ensures var s' := ResetCache(s);
      && |s'.blocks| == |s.blocks| && s'.free == s.free && s'.clock == s.clock
      && (|s.free| + 1 < |s.blocks| ==> s' == s)
      && (|s.free| + 1 == |s.blocks| ==>
            && s'.nextExpiry.None? && (forall k :: IndexOf(s', k) == [])
            && forall b: nat :: b < |s.blocks| ==>
                 && KeysOf(s', b) == {} && s'.blocks[b].numTokens.None? && s'.blocks[b].idleSince.None?
                 && s'.blocks[b].protectedUntil == 0 && s'.blocks[b].refCnt == s.blocks[b].refCnt)
  {
    Conservation(s);
  }

  // A deadline is raised where it was lower; nothing else changes.
  lemma ProtectMeans(s: State, ids: seq<nat>, until: int)
    requires InRange(s, ids)
    ensures var s' := Protect(s, ids, until);
      && s' == s.(blocks := s'.blocks) && |s'.blocks| == |s.blocks|
      && forall b: nat :: b < |s.blocks| ==>
           && s'.blocks[b] == s.blocks[b].(protectedUntil := s'.blocks[b].protectedUntil)
           && s'.blocks[b].protectedUntil >= s.blocks[b].protectedUntil
           && (b in ids ==> s'.blocks[b].protectedUntil >= until)
           && (b !in ids || s.blocks[b].protectedUntil >= until ==> s'.blocks[b] == s.blocks[b])
           && (s'.blocks[b].protectedUntil == s.blocks[b].protectedUntil || s'.blocks[b].protectedUntil == until)
  {
  }
}
