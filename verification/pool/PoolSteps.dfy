// How the loops of the pool build up the functions of PoolModel.dfy.
module PoolSteps {
  import opened Wrappers
  import opened Seqs
  import opened BlockKeys
  import opened PoolModel
  import opened PoolInvariants
  import opened PoolTiming
  import opened BlockMap

  // The invariants as sealed facts: a proof about the heap passes them on without looking
  // inside, which keeps their quantifiers out of its way.
  ghost predicate Look(s: State) {
    true
  }

  ghost predicate Sound(s: State) {
    forall t {:trigger Look(t)} :: Look(t) && t == s ==> Inv(t)
  }

  ghost predicate SoundKeys(s: State) {
    forall t {:trigger Look(t)} :: Look(t) && t == s ==> Coherent(t)
  }

  lemma Open(s: State)
    requires Sound(s)
    ensures Inv(s) && SoundKeys(s)
  {
    assert Look(s);
  }

  lemma OpenKeys(s: State)
    requires SoundKeys(s)
    ensures Coherent(s)
  {
    assert Look(s);
  }

  lemma SoundHasSoundKeys(s: State)
    requires Sound(s)
    ensures SoundKeys(s)
  {
    Open(s);
  }

  lemma SoundBlock(s: State, b: nat)
    requires SoundKeys(s) && b < |s.blocks|
    ensures BlockOk(s, b)
  {
    OpenKeys(s);
  }

  lemma ClockKeepsSound(s: State, now: int)
    requires Sound(s)
    ensures Sound(s.(clock := now))
  {
    Open(s);
    MetaChangeKeepsCoherent(s, s.(clock := now));
  }

  lemma InitSound(n: nat)
    requires n > 0
    ensures Sound(Init(n))
  {
    InitInv(n);
  }

  // The index after block b was popped from some of its keys.
  ghost function PopKeys(index: map<Key, seq<nat>>, b: nat, keys: set<Key>): map<Key, seq<nat>> {
    map k | k in index && (k in keys ==> Drop(index[k], {b}) != []) ::
      if k in keys then Drop(index[k], {b}) else index[k]
  }

  // The same, popping key after key as the loop does.
  ghost function PopList(index: map<Key, seq<nat>>, b: nat, keys: seq<Key>): map<Key, seq<nat>> {
    if keys == [] then index
    else Popped(PopList(index, b, keys[..|keys| - 1]), keys[|keys| - 1], b)
  }

  lemma PopListSnoc(index: map<Key, seq<nat>>, b: nat, keys: seq<Key>, i: nat)
    requires i < |keys|
    ensures PopList(index, b, keys[..i + 1]) == Popped(PopList(index, b, keys[..i]), keys[i], b)
  {
    assert keys[..i + 1][..i] == keys[..i];
  }

  lemma PopKeysStep(index: map<Key, seq<nat>>, b: nat, done: set<Key>, k: Key)
    requires k !in done && k in index && b in index[k]
    ensures PopKeys(index, b, done + {k}) == Popped(PopKeys(index, b, done), k, b)
  {
    var was := PopKeys(index, b, done);
    assert was[k] == index[k];
  }

  lemma {:induction false} PopListIs(s: State, b: nat, keys: seq<Key>)
    requires Coherent(s) && b < |s.blocks| && Elems(keys) <= KeysOf(s, b) && Distinct(keys)
    ensures PopList(s.index, b, keys) == PopKeys(s.index, b, Elems(keys))
  {
    if keys != [] {
      var front, k := keys[..|keys| - 1], keys[|keys| - 1];
      assert keys == front + [k];
      assert Elems(keys) == Elems(front) + {k};
      PopListIs(s, b, front);
      assert b in IndexOf(s, k);
      PopKeysStep(s.index, b, Elems(front), k);
    }
  }

  // Each key is there to be popped when its turn comes.
  lemma StillIndexed(s: State, b: nat, keys: seq<Key>, i: nat)
    requires SoundKeys(s) && b < |s.blocks| && Elems(keys) == KeysOf(s, b) && Distinct(keys) && i < |keys|
    ensures keys[i] in PopList(s.index, b, keys[..i]) && b in PopList(s.index, b, keys[..i])[keys[i]]
  {
    OpenKeys(s);
    assert Elems(keys[..i]) <= Elems(keys);
    PopListIs(s, b, keys[..i]);
    assert keys[i] in Elems(keys);
    assert b in IndexOf(s, keys[i]);
    assert keys[i] !in Elems(keys[..i]);
  }

  lemma PopKeysIsRemoval(s: State, b: nat)
    requires Coherent(s) && b < |s.blocks|
    ensures PopKeys(s.index, b, KeysOf(s, b)) == RemoveAll(s, {b}).index
  {
    forall k | k in s.index && k !in KeysOf(s, b)
      ensures Drop(s.index[k], {b}) == s.index[k] != []
    {
      assert b !in IndexOf(s, k);
      DropNothing(s.index[k], {b});
    }
  }

  // Removing the keys of one block, as the program does it.
  lemma RemoveOne(s: State, b: nat, keys: seq<Key>)
    requires SoundKeys(s) && b < |s.blocks| && Elems(keys) == KeysOf(s, b) && Distinct(keys) && keys != []
    ensures RemoveAll(s, {b}) ==
              s.(blocks := s.blocks[b := s.blocks[b].Reset()], index := PopList(s.index, b, keys),
                 secondary := s.secondary - {b})
    ensures forall k :: k in PopList(s.index, b, keys) ==> k in s.index
  {
    OpenKeys(s);
    PopListIs(s, b, keys);
    PopKeysIsRemoval(s, b);
    assert keys[0] in Elems(keys);
    assert BlockOk(s, b);
    assert RemoveAll(s, {b}).blocks == s.blocks[b := s.blocks[b].Reset()];
  }

  lemma NothingToRemove(s: State, b: nat)
    requires SoundKeys(s) && b < |s.blocks| && KeysOf(s, b) == {}
    ensures RemoveAll(s, {b}) == s
  {
    OpenKeys(s);
    assert BlockOk(s, b);
    var s' := RemoveAll(s, {b});
    forall k | k in s.index
      ensures Drop(s.index[k], {b}) == s.index[k] != []
    {
      assert b !in IndexOf(s, k);
      DropNothing(s.index[k], {b});
    }
    assert s'.blocks == s.blocks;
    assert s'.index == s.index;
    assert s'.secondary == s.secondary;
  }

  // ---- Counting the entries of a key ----

  lemma KeysAreIndexed(s: State, b: nat)
    requires SoundKeys(s) && b < |s.blocks|
    ensures forall k :: k in KeysOf(s, b) ==> k in s.index
  {
    OpenKeys(s);
    forall k | k in KeysOf(s, b)
      ensures k in s.index
    {
      assert b in IndexOf(s, k);
    }
  }

  lemma RemovalCount(s: State, b: nat, removed: seq<Key>, k: Key)
    requires SoundKeys(s) && b < |s.blocks| && Distinct(removed) && Elems(removed) == KeysOf(s, b)
    ensures |IndexOf(RemoveAll(s, {b}), k)| + multiset(removed)[k] == |IndexOf(s, k)|
  {
    OpenKeys(s);
    var ids := IndexOf(s, k);
    RemoveAllKeys(s, {b});
    OncePerKey(removed, k);
    assert b in ids <==> k in Elems(removed);
    if b in ids {
      var i :| 0 <= i < |ids| && ids[i] == b;
      DropAt(ids, i);
    } else {
      DropNothing(ids, {b});
    }
  }

  lemma {:induction false} OncePerKey(keys: seq<Key>, k: Key)
    requires Distinct(keys)
    ensures multiset(keys)[k] == if k in Elems(keys) then 1 else 0
  {
    if keys != [] {
      var front, last := keys[..|keys| - 1], keys[|keys| - 1];
      assert keys == front + [last];
      OncePerKey(front, k);
      assert last !in front;
    }
  }

  lemma InsertionCount(s: State, b: nat, key: Key, tokens: nat, k: Key)
    requires SoundKeys(s) && b < |s.blocks|
    ensures |IndexOf(InsertHash(s, b, key, tokens), k)| ==
              |IndexOf(s, k)| + if k == key && key !in KeysOf(s, b) then 1 else 0
  {
    OpenKeys(s);
    InsertHashKeys(s, b, key, tokens);
  }

  // ---- Allocation ----

  // Victims are taken in two rounds: unprotected blocks, then whatever is left.
  lemma VictimRounds(s: State, n: nat, now: int)
    returns (u: seq<nat>, first: seq<nat>, rest: seq<nat>, more: seq<nat>, left: seq<nat>)
    requires Sound(s) && n <= |s.free|
    ensures forall b :: b in Elems(u) <==> b in s.free && b !in ProtectedFree(s, now)
    ensures first == First(Keep(s.free, Elems(u)), n) && |first| <= n && rest == Drop(s.free, Elems(first))
    ensures |first| < n ==> more == First(Keep(rest, Elems(rest)), n - |first|) && left == Drop(rest, Elems(more))
    ensures |first| == n ==> more == [] && left == rest
    ensures Victims(s, n, now) == first + more
    ensures Drop(s.free, Elems(first + more)) == left
  {
    Open(s);
    var p := ProtectedFree(s, now);
    VictimOrderIsPartition(s, now);
    SplitLengths(s.free, p);
    DropMembers(s.free, p);
    u, first, rest := UnprotectedRound(s.free, p, n);
    more, left := RestRound(s.free, p, n, u, first, rest);
    FirstOfBoth(u, Keep(s.free, p), n, first, more);
  }

  // The first round: of the queue without the set p, the first n.
  lemma UnprotectedRound(free: seq<nat>, p: set<nat>, n: nat) returns (u: seq<nat>, first: seq<nat>, rest: seq<nat>)
    ensures u == Drop(free, p) && first == First(Keep(free, Elems(u)), n) == First(u, n)
    ensures rest == Drop(free, Elems(first))
    ensures |first| < n ==> first == u && rest == Keep(free, p)
  {
    u := Drop(free, p);
    DropMembers(free, p);
    KeepIsDrop(free, Elems(u), p);
    first := First(u, n);
    rest := Drop(free, Elems(first));
  }

  // The second round: from what is left, as many as are missing.
  lemma RestRound(free: seq<nat>, p: set<nat>, n: nat, u: seq<nat>, first: seq<nat>, rest: seq<nat>)
    returns (more: seq<nat>, left: seq<nat>)
    requires first == First(u, n) && rest == Drop(free, Elems(first))
    requires (|first| < n ==> first == u && rest == Keep(free, p))
    ensures |first| < n ==>
              more == First(Keep(rest, Elems(rest)), n - |first|) == First(Keep(free, p), n - |u|)
                  && left == Drop(rest, Elems(more))
    ensures |first| == n ==> more == [] && left == rest
    ensures Drop(free, Elems(first + more)) == left
  {
    more, left := [], rest;
    if |first| < n {
      KeepAll(rest, Elems(rest));
      more := First(rest, n - |first|);
      left := Drop(rest, Elems(more));
      DropDrop(free, Elems(first), Elems(more));
      assert Elems(first + more) == Elems(first) + Elems(more);
    } else {
      assert first + more == first;
    }
  }

  lemma FirstOfBoth(u: seq<nat>, w: seq<nat>, n: nat, first: seq<nat>, more: seq<nat>)
    requires n <= |u + w| && first == First(u, n)
    requires if |first| < n then more == First(w, n - |u|) else more == []
    ensures (u + w)[..n] == first + more
  {
  }

  lemma ClearNone(s: State)
    ensures ClearProtection(s, {}) == s
  {
    assert ClearProtection(s, {}).blocks == s.blocks;
  }

  lemma ClearOneMore(s: State, done: set<nat>, b: nat)
    requires b < |s.blocks|
    ensures var t := ClearProtection(s, done);
      ClearProtection(s, done + {b}) == t.(blocks := t.blocks[b := t.blocks[b].(protectedUntil := 0)])
  {
    var t := ClearProtection(s, done);
    assert ClearProtection(s, done + {b}).blocks == t.blocks[b := t.blocks[b].(protectedUntil := 0)];
  }

  lemma ElemsUpTo(v: seq<nat>, i: nat)
    requires i < |v|
    ensures Elems(v[..i + 1]) == Elems(v[..i]) + {v[i]}
    ensures Distinct(v) ==> v[i] !in Elems(v[..i])
  {
    assert v[..i + 1] == v[..i] + [v[i]];
  }

  // Before victims are prepared, nothing but the queue and protections has changed.
  lemma SelectedIsReady(cfg: Config, s: State, n: nat, now: int, v: seq<nat>)
    requires Sound(s) && n <= |s.free| && v == Victims(s, n, now)
    ensures var s1 := ClearProtection(s.(free := Drop(s.free, Elems(v)), clock := now), Elems(v));
      && SoundKeys(s1) && Distinct(v) && Sound(GetNew(cfg, s, n, now))
      && Prepared(cfg, s1, Elems(v)) == GetNew(cfg, s, n, now)
      && forall b :: b in v ==> b < |s.blocks| && s1.blocks[b].refCnt == 0
  {
    Open(s);
    VictimsArePrefix(s, n, now);
    GetNewResult(cfg, s, n, now);
    MetaChangeKeepsCoherent(s, ClearProtection(s.(free := Drop(s.free, Elems(v)), clock := now), Elems(v)));
  }

  // The state while the victims are prepared, those in done being ready.
  function Prepared(cfg: Config, s: State, done: set<nat>): State {
    AddRef(if cfg.caching then RemoveAll(s, done) else s, done)
  }

  lemma PreparedNone(cfg: Config, s: State)
    requires SoundKeys(s)
    ensures Prepared(cfg, s, {}) == s
  {
    OpenKeys(s);
    RemoveNothing(s);
    assert AddRef(s, {}).blocks == s.blocks;
  }

  lemma PreparedCoherent(cfg: Config, s: State, done: set<nat>)
    requires SoundKeys(s)
    ensures SoundKeys(Prepared(cfg, s, done))
  {
    OpenKeys(s);
    RemoveAllKeys(s, done);
    var s1 := if cfg.caching then RemoveAll(s, done) else s;
    MetaChangeKeepsCoherent(s1, AddRef(s1, done));
  }

  lemma PreparedOneMore(cfg: Config, s: State, done: set<nat>, b: nat)
    requires b < |s.blocks| && b !in done
    ensures var t := Prepared(cfg, s, done);
      var u := if cfg.caching then RemoveAll(t, {b}) else t;
      && b < |u.blocks|
      && Prepared(cfg, s, done + {b}) == u.(blocks := u.blocks[b := u.blocks[b].(refCnt := u.blocks[b].refCnt + 1)])
      && u.blocks[b].refCnt == s.blocks[b].refCnt
  {
    var t := Prepared(cfg, s, done);
    var u := if cfg.caching then RemoveAll(t, {b}) else t;
    var v := u.(blocks := u.blocks[b := u.blocks[b].(refCnt := u.blocks[b].refCnt + 1)]);
    var w := Prepared(cfg, s, done + {b});
    if cfg.caching {
      RemoveAllCompose(s, done, {b});
      assert u.index == RemoveAll(RemoveAll(s, done), {b}).index;
    }
    assert v.blocks == w.blocks;
  }

  lemma PreparedCount(cfg: Config, s: State, done: set<nat>, b: nat)
    requires b < |s.blocks| && b !in done
    ensures b < |Prepared(cfg, s, done).blocks| && Prepared(cfg, s, done).blocks[b].refCnt == s.blocks[b].refCnt
  {
  }

  // ---- Touch ----

  lemma TouchNone(s: State)
    ensures Touch(s, []) == s
  {
    assert Elems<nat>([]) == {};
    DropNothing(s.free, {});
    assert Touch(s, []).blocks == s.blocks;
  }

  // One more holder for block b.
  function TouchedOnce(t: State, b: nat): State
    requires b < |t.blocks|
  {
    var m := t.blocks[b];
    var queued := m.refCnt == 0 && b != NULL_BLOCK;
    t.(blocks := t.blocks[b := m.(refCnt := m.refCnt + 1, idleSince := if queued then None else m.idleSince)],
       free := if queued then Drop(t.free, {b}) else t.free)
  }

  lemma TouchOneMore(s: State, ids: seq<nat>, b: nat) returns (t: State)
    requires Sound(s) && InRange(s, ids) && b < |s.blocks|
    ensures t == Touch(s, ids) && |t.blocks| == |s.blocks|
    ensures Touch(s, ids + [b]) == TouchedOnce(t, b)
    ensures t.blocks[b].refCnt == 0 && b != NULL_BLOCK ==> b in t.free
  {
    Open(s);
    t := Touch(s, ids);
    TouchBlocks(s, ids, b);
    TouchQueue(s, ids, b);
  }

  lemma TouchQueue(s: State, ids: seq<nat>, b: nat)
    requires Inv(s) && InRange(s, ids) && b < |s.blocks|
    ensures var t := Touch(s, ids);
      var queued := t.blocks[b].refCnt == 0 && b != NULL_BLOCK;
      Touch(s, ids + [b]).free == (if queued then Drop(t.free, {b}) else t.free) && (queued ==> b in t.free)
  {
    var left := Drop(s.free, Elems(ids));
    DropDrop(s.free, Elems(ids), {b});
    assert Elems(ids + [b]) == Elems(ids) + {b};
    DropMembers(s.free, Elems(ids));
    assert b in ids <==> multiset(ids)[b] > 0;
    if b !in left {
      DropNothing(left, {b});
    }
  }

  lemma TouchBlocks(s: State, ids: seq<nat>, b: nat)
    requires InRange(s, ids) && b < |s.blocks| && (b != NULL_BLOCK ==> s.blocks[b].refCnt >= 0)
    ensures var t := Touch(s, ids);
      Touch(s, ids + [b]).blocks ==
        t.blocks[b := t.blocks[b].(refCnt := t.blocks[b].refCnt + 1,
                                   idleSince := if WasQueued(b, t.blocks[b]) then None else t.blocks[b].idleSince)]
  {
    var t, u := Touch(s, ids), Touch(s, ids + [b]);
    assert multiset(ids + [b]) == multiset(ids) + multiset{b};
    assert b in ids <==> multiset(ids)[b] > 0;
    forall i | 0 <= i < |s.blocks| && i != b
      ensures u.blocks[i] == t.blocks[i]
    {
      assert i in ids + [b] <==> i in ids;
    }
  }

  // ---- Free ----

  // The state while counts are taken down, before the queue is touched.
  function Lowered(s: State, ids: seq<nat>): State {
    s.(blocks := seq(|s.blocks|,
                     i requires 0 <= i < |s.blocks| => s.blocks[i].(refCnt := s.blocks[i].refCnt - multiset(ids)[i])))
  }

  lemma LoweredNone(s: State)
    ensures Lowered(s, []) == s
  {
    assert Lowered(s, []).blocks == s.blocks;
  }

  lemma LoweredBlocks(s: State, ids: seq<nat>, b: nat)
    requires InRange(s, ids) && b < |s.blocks|
    ensures var t := Lowered(s, ids);
      Lowered(s, ids + [b]) == t.(blocks := t.blocks[b := t.blocks[b].(refCnt := t.blocks[b].refCnt - 1)])
  {
    assert multiset(ids + [b]) == multiset(ids) + multiset{b};
    var t := Lowered(s, ids);
    assert Lowered(s, ids + [b]).blocks == t.blocks[b := t.blocks[b].(refCnt := t.blocks[b].refCnt - 1)];
  }

  lemma ReleasedOneMore(s: State, ids: seq<nat>, b: nat)
    requires InRange(s, ids) && b < |s.blocks|
    ensures InRange(s, ids + [b])
    ensures Released(s, ids + [b]) == Released(s, ids)
              + if b != NULL_BLOCK && s.blocks[b].refCnt - multiset(ids)[b] == 1 then [b] else []
  {
    assert multiset(ids + [b]) == multiset(ids) + multiset{b};
    assert (ids + [b])[..|ids|] == ids;
  }

  lemma LoweredOneMore(s: State, ids: seq<nat>, b: nat)
    requires InRange(s, ids) && b < |s.blocks|
    ensures InRange(s, ids + [b])
    ensures var t := Lowered(s, ids);
      && Lowered(s, ids + [b]) == t.(blocks := t.blocks[b := t.blocks[b].(refCnt := t.blocks[b].refCnt - 1)])
      && Released(s, ids + [b]) == Released(s, ids) + if b != NULL_BLOCK && t.blocks[b].refCnt == 1 then [b] else []
  {
    LoweredBlocks(s, ids, b);
    ReleasedOneMore(s, ids, b);
  }

  function SetIdle(s: State, ids: set<nat>, now: int): State {
    s.(blocks := seq(|s.blocks|, i requires 0 <= i < |s.blocks| =>
                       if i in ids then s.blocks[i].(idleSince := Some(now)) else s.blocks[i]))
  }

  lemma SetIdleNone(s: State, now: int)
    ensures SetIdle(s, {}, now) == s
  {
    assert SetIdle(s, {}, now).blocks == s.blocks;
  }

  lemma SetIdleOneMore(s: State, ids: set<nat>, now: int, b: nat)
    requires b < |s.blocks|
    ensures var t := SetIdle(s, ids, now);
      SetIdle(s, ids + {b}, now) == t.(blocks := t.blocks[b := t.blocks[b].(idleSince := Some(now))])
  {
    var t := SetIdle(s, ids, now);
    assert SetIdle(s, ids + {b}, now).blocks == t.blocks[b := t.blocks[b].(idleSince := Some(now))];
  }

  lemma FreeAssembled(cfg: Config, s: State, ids: seq<nat>, now: int)
    requires InRange(s, ids)
    ensures var released, warmth := Released(s, ids), KeptWarm(cfg, s);
      var warm, cold := Keep(released, warmth), Drop(released, warmth);
      var timed := cfg.timeout.Some? && warm != [];
      Free(cfg, s, ids, now) ==
        (if timed then SetIdle(Lowered(s, ids), Elems(warm), now) else Lowered(s, ids)).(
          free := cold + s.free + warm,
          nextExpiry := if timed then Earlier(s.nextExpiry, now + cfg.timeout.value) else s.nextExpiry,
          clock := now)
  {
    var released, warmth := Released(s, ids), KeptWarm(cfg, s);
    var warm := Keep(released, warmth);
    var timed := cfg.timeout.Some? && warm != [];
    var t := if timed then SetIdle(Lowered(s, ids), Elems(warm), now) else Lowered(s, ids);
    var f := Free(cfg, s, ids, now);
    forall i | 0 <= i < |s.blocks|
      ensures f.blocks[i] == t.blocks[i]
    {
    }
    assert f.blocks == t.blocks;
  }

  lemma TouchSound(s: State, ids: seq<nat>)
    requires Sound(s) && InRange(s, ids)
    ensures Sound(Touch(s, ids))
    ensures forall k :: IndexOf(Touch(s, ids), k) == IndexOf(s, k)
  {
    Open(s);
    TouchInv(s, ids);
  }

  lemma FreeSound(cfg: Config, s: State, ids: seq<nat>, now: int)
    requires Sound(s) && InRange(s, ids) && NoOverFree(s, ids)
    ensures Sound(Free(cfg, s, ids, now))
    ensures forall k :: IndexOf(Free(cfg, s, ids, now), k) == IndexOf(s, k)
  {
    Open(s);
    FreeInv(cfg, s, ids, now);
  }

  // The released blocks are distinct and not in the queue.
  lemma ReleasedFacts(cfg: Config, s: State, ids: seq<nat>)
    requires Sound(s) && InRange(s, ids)
    ensures var released := Released(s, ids);
      var warm, cold := Keep(released, KeptWarm(cfg, s)), Drop(released, KeptWarm(cfg, s));
      && Distinct(warm) && Distinct(cold) && InRange(s, warm) && InRange(s, cold)
      && (forall b :: b in warm ==> b !in s.free && b !in cold)
      && (forall b :: b in cold ==> b !in s.free)
  {
    Open(s);
    var released := Released(s, ids);
    ReleasedMembers(s, ids);
    KeepMembers(released, KeptWarm(cfg, s));
    DropMembers(released, KeptWarm(cfg, s));
    KeepDistinct(released, KeptWarm(cfg, s));
    DropDistinct(released, KeptWarm(cfg, s));
    var warm, cold := Keep(released, KeptWarm(cfg, s)), Drop(released, KeptWarm(cfg, s));
    forall i | 0 <= i < |warm|
      ensures warm[i] < |s.blocks|
    {
      assert warm[i] in warm;
    }
    forall i | 0 <= i < |cold|
      ensures cold[i] < |s.blocks|
    {
      assert cold[i] in cold;
    }
  }

  // The idle times and the bound after a release of the given warm blocks.
  function Stamped(cfg: Config, t: State, warm: seq<nat>, now: int): State {
    if cfg.timeout.Some? && warm != [] then
      SetIdle(t, Elems(warm), now).(nextExpiry := Earlier(t.nextExpiry, now + cfg.timeout.value))
    else t
  }

  // A release as the program carries it out: counts down, idle times, then the queue.
  lemma FreePlan(cfg: Config, s: State, ids: seq<nat>, now: int)
    returns (warmth: set<nat>, warm: seq<nat>, cold: seq<nat>, lowered: State, stamped: State, goal: State)
    requires Sound(s) && InRange(s, ids)
    ensures warmth == KeptWarm(cfg, s)
    ensures warm == Keep(Released(s, ids), warmth) && cold == Drop(Released(s, ids), warmth)
    ensures Distinct(warm) && Distinct(cold)
    ensures forall b :: b in warm ==> b !in s.free && b !in cold
    ensures forall b :: b in cold ==> b !in s.free
    ensures lowered == Lowered(s, ids) && stamped == Stamped(cfg, lowered, warm, now)
    ensures goal == Free(cfg, s, ids, now) == stamped.(free := cold + s.free + warm, clock := now)
  {
    warmth := KeptWarm(cfg, s);
    warm, cold := Keep(Released(s, ids), warmth), Drop(Released(s, ids), warmth);
    lowered, goal := Lowered(s, ids), Free(cfg, s, ids, now);
    stamped := Stamped(cfg, lowered, warm, now);
    ReleasedFacts(cfg, s, ids);
    FreeAssembled(cfg, s, ids, now);
  }

  lemma SortOne(r: seq<nat>, b: nat, warmth: set<nat>)
    ensures Keep(r + [b], warmth) == Keep(r, warmth) + (if b in warmth then [b] else [])
    ensures Drop(r + [b], warmth) == Drop(r, warmth) + (if b in warmth then [] else [b])
  {
    KeepConcat(r, [b], warmth);
    DropConcat(r, [b], warmth);
  }

  lemma SortMaybe(r: seq<nat>, b: nat, warmth: set<nat>, hit: bool)
    ensures Keep(r + (if hit then [b] else []), warmth) == Keep(r, warmth) + (if hit && b in warmth then [b] else [])
    ensures Drop(r + (if hit then [b] else []), warmth) == Drop(r, warmth) + (if hit && b !in warmth then [b] else [])
  {
    if hit {
      SortOne(r, b, warmth);
    } else {
      assert r + [] == r;
    }
  }

  // The two lists a release sorts the released blocks into.
  ghost predicate Sorted(s: State, ids: seq<nat>, warmth: set<nat>, warm: seq<nat>, cold: seq<nat>) {
    InRange(s, ids) && warm == Keep(Released(s, ids), warmth) && cold == Drop(Released(s, ids), warmth)
  }

  // How they grow when one more count is taken down.
  lemma SortReleased(s: State, warmth: set<nat>, ids: seq<nat>, b: nat) returns (hit: bool)
    requires InRange(s, ids) && b < |s.blocks|
    ensures InRange(s, ids + [b]) && hit == (b != NULL_BLOCK && Lowered(s, ids).blocks[b].refCnt == 1)
    ensures var t := Lowered(s, ids);
      Lowered(s, ids + [b]) == t.(blocks := t.blocks[b := t.blocks[b].(refCnt := t.blocks[b].refCnt - 1)])
    ensures Keep(Released(s, ids + [b]), warmth) == Keep(Released(s, ids), warmth)
              + (if hit && b in warmth then [b] else [])
    ensures Drop(Released(s, ids + [b]), warmth) == Drop(Released(s, ids), warmth)
              + (if hit && b !in warmth then [b] else [])
  {
    LoweredOneMore(s, ids, b);
    hit := b != NULL_BLOCK && Lowered(s, ids).blocks[b].refCnt == 1;
    SortMaybe(Released(s, ids), b, warmth, hit);
  }

  // ---- Expiry ----

  // A scan of the free blocks ids[..i]: the ones due so far and the bound over the others.
  lemma ScanOneMore(s: State, timeout: int, now: int, i: nat)
    requires Sound(s) && i < |s.free|
    ensures var b: nat, due: set<nat> := s.free[i], DueFree(s, timeout, now);
      && b < |s.blocks|
      && Keep(s.free[..i + 1], due) == Keep(s.free[..i], due) + (if Due(timeout, s.blocks[b], now) then [b] else [])
      && NextExpiry(s, timeout, now, s.free[..i + 1]) ==
           var rest := NextExpiry(s, timeout, now, s.free[..i]);
           if s.blocks[b].hash.None? then rest
           else if s.blocks[b].protectedUntil > now then Earlier(rest, s.blocks[b].protectedUntil)
           else if s.blocks[b].idleSince.Some? && s.blocks[b].idleSince.value + timeout > now then
             Earlier(rest, s.blocks[b].idleSince.value + timeout)
           else rest
  {
    Open(s);
    var b: nat, due: set<nat> := s.free[i], DueFree(s, timeout, now);
    assert s.free[..i + 1] == s.free[..i] + [b];
    SortOne(s.free[..i], b, due);
    assert b in s.free;
    assert s.free[..i + 1][..i] == s.free[..i];
  }

  // The due blocks, distinct and all in the queue.
  lemma DueList(s: State, timeout: int, now: int) returns (due: seq<nat>)
    requires Sound(s)
    ensures due == Keep(s.free, DueFree(s, timeout, now))
    ensures Distinct(due) && InRange(s, due) && forall b :: b in due ==> b in s.free
    ensures Drop(s.free, Elems(due)) == Drop(s.free, DueFree(s, timeout, now))
    ensures RemoveAll(s, Elems(due)) == RemoveAll(s, DueFree(s, timeout, now))
  {
    Open(s);
    var all := DueFree(s, timeout, now);
    due := Keep(s.free, all);
    KeepMembers(s.free, all);
    KeepDistinct(s.free, all);
    DropSame(s.free, Elems(due), all);
    forall b | b in all
      ensures b in due
    {
    }
    assert Elems(due) == all;
    forall i | 0 <= i < |due|
      ensures due[i] < |s.blocks|
    {
      assert due[i] in due;
    }
  }

  // An expiry as the program carries it out: scan, unlink and remove, put back in front.
  lemma ExpirePlan(cfg: Config, s: State, now: int)
    returns (due: seq<nat>, rest: seq<nat>, gone: set<nat>, next: Option<int>, mid: State, goal: State)
    requires Sound(s) && ScanNeeded(cfg, s, now)
    ensures due == Keep(s.free, DueFree(s, cfg.timeout.value, now)) && gone == Elems(due) && rest == Drop(s.free, gone)
    ensures next == NextExpiry(s, cfg.timeout.value, now, s.free) && mid == RemoveAll(s, gone)
    ensures SoundKeys(s) && Distinct(due) && InRange(s, due) && forall b :: b in due ==> b in s.free && b !in rest
    ensures goal == Expire(cfg, s, now) == mid.(free := due + rest, clock := now).(nextExpiry := next)
  {
    SoundHasSoundKeys(s);
    due := DueList(s, cfg.timeout.value, now);
    gone, rest, next := Elems(due), Drop(s.free, Elems(due)), NextExpiry(s, cfg.timeout.value, now, s.free);
    mid, goal := RemoveAll(s, gone), Expire(cfg, s, now);
    DropMembers(s.free, gone);
    var all := DueFree(s, cfg.timeout.value, now);
    var s1 := s.(free := Keep(s.free, all) + Drop(s.free, all), nextExpiry := next, clock := now);
    assert RemoveAll(s1, all).index == RemoveAll(s, all).index;
    assert RemoveAll(s1, all).blocks == RemoveAll(s, all).blocks;
  }

  // The queue and the keys when one more due block is taken out.
  lemma ExpireStep(s: State, done: set<nat>, b: nat)
    requires SoundKeys(s) && b in s.free && b !in done
    ensures SoundKeys(RemoveAll(s, done)) && b in Drop(s.free, done)
    ensures Drop(Drop(s.free, done), {b}) == Drop(s.free, done + {b})
    ensures RemoveAll(RemoveAll(s, done), {b}) == RemoveAll(s, done + {b})
  {
    RemovedSoundKeys(s, done);
    DropMembers(s.free, done);
    DropDrop(s.free, done, {b});
    RemoveAllCompose(s, done, {b});
  }

  lemma ExpireNone(s: State)
    requires SoundKeys(s)
    ensures RemoveAll(s, {}) == s && Drop(s.free, {}) == s.free
  {
    OpenKeys(s);
    RemoveNothing(s);
    DropNothing(s.free, {});
  }

  lemma ExpireSound(cfg: Config, s: State, now: int)
    requires Sound(s)
    ensures Sound(Expire(cfg, s, now))
  {
    Open(s);
    ExpireInv(cfg, s, now);
  }

  lemma RemovedSoundKeys(s: State, gone: set<nat>)
    requires SoundKeys(s)
    ensures SoundKeys(RemoveAll(s, gone))
  {
    OpenKeys(s);
    RemoveAllKeys(s, gone);
  }
}
