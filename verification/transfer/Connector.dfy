// The scheduler side of the connector: how many tokens to load, and which read locks to give
// back once blocks are allocated.
module Connector {
  import opened Wrappers
  import opened Seqs
  import opened SchedulerLookup

  datatype RequestState = Prefetching | WaitingForLoad | Ready

  // Of a request's tracker only what the lookup path uses.
  datatype Tracker = Tracker(state: RequestState, vllmHit: nat, lmcacheHit: nat) {
    predicate NeedsRetrieve() {
      lmcacheHit > vllmHit
    }

    // Whether the request waits for a load once its blocks are allocated.
    function Allocated(): Tracker {
      this.(state := if NeedsRetrieve() then WaitingForLoad else Ready)
    }

    // The tokens whose locks are given back: all that were found, or those the engine has.
    function FreeEnd(): nat {
      if NeedsRetrieve() then vllmHit else lmcacheHit
    }
  }

  const NewTracker := Tracker(Prefetching, 0, 0)

  function RoundDown(n: nat, unit: nat): nat
    requires unit > 0
  {
    n / unit * unit
  }

  // The largest multiple that is not greater.
  lemma RoundedDown(n: nat, unit: nat)
    requires unit > 0
    ensures RoundDown(n, unit) <= n < RoundDown(n, unit) + unit && RoundDown(n, unit) % unit == 0
  {
    var q := n / unit;
    assert n == q * unit + n % unit;
    Whole(q, unit);
    var m := TokensOf(q, unit);
    assert m == m / unit * unit + m % unit;
  }

  class LMCacheMPConnector {
    const adapter: LMCacheMPSchedulerAdapter
    const hitAlignment: nat
    var trackers: map<Id, Tracker>

    // A tracker that waits for its blocks stands for a settled lookup.
    ghost predicate TrackerOk(r: Id)
      reads this`trackers, adapter`pendingLookups, adapter`finishedLookupResults
    {
      r in trackers && trackers[r].state == Prefetching && trackers[r].lmcacheHit > 0 ==>
        r in adapter.pendingLookups && r in adapter.finishedLookupResults
            && adapter.finishedLookupResults[r] == trackers[r].lmcacheHit
    }

    ghost predicate Valid()
      reads this, adapter
    {
      hitAlignment > 0 && adapter.Valid() && forall r :: TrackerOk(r)
    }

    constructor (adapter: LMCacheMPSchedulerAdapter, hitAlignment: nat)
      requires adapter.Valid() && hitAlignment > 0
      ensures Valid() && this.adapter == adapter && this.hitAlignment == hitAlignment && trackers == map[]
    {
      this.adapter, this.hitAlignment := adapter, hitAlignment;
      trackers := map[];
    }

    // The tokens to load beyond the computed ones, None while the lookup is under way; at
    // least one token of the request is left to compute.
    method GetNumNewMatchedTokens(r: Id, tokens: seq<Token>, computed: nat, total: nat, preempted: bool,
                                  silent: set<Url>, answers: map<Url, Answer>)
      returns (need: Option<nat>, loads: bool)
      requires Valid() && answers.Keys >= Elems(adapter.serverUrls)
      modifies this, adapter
      ensures Valid() && loads == (need != Some(0))
      ensures r in trackers
      ensures forall q :: q != r ==>
                (q in trackers <==> q in old(trackers)) && (q in trackers ==> trackers[q] == old(trackers)[q])
      // A preempted request loads nothing, nor does one whose servers are down.
      ensures preempted || !adapter.IsHealthy() ==> need == Some(0)
      // The others wait until the lookup is settled, and then load what was found beyond the computed
      // tokens; when everything was found one token is left to compute.
      ensures !preempted && adapter.IsHealthy() ==> (need.None? <==> r !in adapter.finishedLookupResults)
      ensures !preempted && adapter.IsHealthy() && r in adapter.finishedLookupResults ==>
                var hit := adapter.finishedLookupResults[r];
                need.value == if hit <= computed then 0 else if hit == total then hit - computed - 1 else hit - computed
      ensures need.Some? && (need.value > 0 ==> adapter.finishedLookupResults[r] <= total) && computed < total ==>
                computed + need.value < total
      // What was found is noted, with the computed tokens cut to the alignment.
      ensures var was := if r in old(trackers) then old(trackers)[r] else NewTracker;
        if !preempted && adapter.IsHealthy()
           && r in adapter.finishedLookupResults && adapter.finishedLookupResults[r] > 0 then
          && trackers[r].state == was.state && trackers[r].lmcacheHit == adapter.finishedLookupResults[r]
          && trackers[r].vllmHit % hitAlignment == 0
          && trackers[r].vllmHit <= computed < trackers[r].vllmHit + hitAlignment
        else trackers[r] == was
    {
      GetOrCreateTracker(r);
      if preempted {
        return Some(0), false;
      }
      var ret := LookUp(r, tokens, silent, answers);
      if ret.None? {
        return None, true;
      }
      if ret.value == 0 {
        return Some(0), false;
      }
      RoundedDown(computed, hitAlignment);
      SetHits(r, RoundDown(computed, hitAlignment), ret.value);
      var needToLoad := StillToLoad(ret.value, computed, total);
      return Some(needToLoad), needToLoad > 0;
    }

    // Starts the lookup if there is none, and asks for its result.
    method LookUp(r: Id, tokens: seq<Token>, silent: set<Url>, answers: map<Url, Answer>) returns (ret: Option<nat>)
      requires Valid() && answers.Keys >= Elems(adapter.serverUrls)
      modifies adapter
      ensures Valid()
      ensures !adapter.IsHealthy() ==> ret == Some(0)
      ensures adapter.IsHealthy() ==> (ret.None? <==> r !in adapter.finishedLookupResults)
      ensures adapter.IsHealthy() && ret.Some? ==>
                ret == Some(adapter.finishedLookupResults[r]) && r in adapter.pendingLookups
    {
      adapter.MaybeSubmitLookupRequest(r, tokens, silent);
      assert adapter.RequestOk(r);
      ret := adapter.CheckLookupResult(r, answers);
      assert adapter.RequestOk(r);
      forall q
        ensures TrackerOk(q)
      {
        assert old(TrackerOk(q));
      }
    }

    static method StillToLoad(hit: nat, computed: nat, total: nat) returns (needToLoad: nat)
      ensures needToLoad == if hit <= computed then 0 else if hit == total then hit - computed - 1 else hit - computed
    {
      needToLoad := if hit > computed then hit - computed else 0;
      // On a full hit the last token is computed again.
      if hit == total {
        needToLoad := if needToLoad > 0 then needToLoad - 1 else 0;
      }
    }

    method GetOrCreateTracker(r: Id)
      requires Valid()
      modifies this`trackers
      ensures Valid() && trackers == if r in old(trackers) then old(trackers) else old(trackers)[r := NewTracker]
    {
      if r !in trackers {
        trackers := trackers[r := NewTracker];
        forall q
          ensures TrackerOk(q)
        {
          assert q != r ==> old(TrackerOk(q));
        }
      }
    }

    method SetHits(r: Id, vllmHit: nat, lmcacheHit: nat)
      requires Valid() && r in trackers && r in adapter.pendingLookups
      requires r in adapter.finishedLookupResults && adapter.finishedLookupResults[r] == lmcacheHit
      modifies this`trackers
      ensures Valid() && trackers == old(trackers)[r := old(trackers)[r].(vllmHit := vllmHit, lmcacheHit := lmcacheHit)]
    {
      trackers := trackers[r := trackers[r].(vllmHit := vllmHit, lmcacheHit := lmcacheHit)];
      forall q
        ensures TrackerOk(q)
      {
        assert q != r ==> old(TrackerOk(q));
      }
    }

    // The locks of a request before and after those on its first freed tokens are given back.
    twostate predicate LocksReleased(r: Id, freed: nat)
      reads adapter`locks, adapter`healthy
      requires adapter.tokensPerChunk > 0
    {
      && r in adapter.locks && adapter.locks[r].Keys == Elems(adapter.serverUrls)
      && r in old(adapter.locks) && old(adapter.locks)[r].Keys == Elems(adapter.serverUrls)
      && forall u :: u in adapter.serverUrls ==>
           adapter.locks[r][u] == old(adapter.locks)[r][u] - Range(0, freed, adapter.tokensPerChunk)
    }

    // The locks a request is left with on every server: nothing when nothing is retrieved,
    // else the common chunks from the first one the engine does not have whole.
    ghost predicate OnlyToRetrieve(r: Id, tracker: Tracker)
      reads adapter`locks
    {
      && adapter.tokensPerChunk > 0 && r in adapter.locks && adapter.locks[r].Keys == Elems(adapter.serverUrls)
      && forall u :: u in adapter.serverUrls ==> adapter.locks[r][u] == ToRetrieve(tracker, adapter.tokensPerChunk)
    }

    // After the first allocation the lookup is forgotten, and the locks on what will not be
    // retrieved are given back on every server.
    method UpdateStateAfterAlloc(r: Id)
      requires Valid() && r in trackers
      modifies this, adapter
      ensures Valid()
      ensures old(trackers)[r].state != Prefetching ==> trackers == old(trackers) && adapter.locks == old(adapter.locks)
      // The request waits for a load exactly when the servers have more than the engine.
      ensures old(trackers)[r].state == Prefetching ==>
                && r !in adapter.pendingLookups && r in trackers && trackers == old(trackers)[r := trackers[r]]
                && trackers[r].vllmHit == old(trackers)[r].vllmHit
                && trackers[r].lmcacheHit == old(trackers)[r].lmcacheHit
                && (trackers[r].lmcacheHit > trackers[r].vllmHit ==> trackers[r].state == WaitingForLoad)
                && (trackers[r].lmcacheHit <= trackers[r].vllmHit ==> trackers[r].state == Ready)
      // The locks on the tokens before the first one to retrieve are given back, or all of them.
      ensures var was := old(trackers)[r];
        was.state == Prefetching && was.lmcacheHit > 0 && old(adapter.IsHealthy()) ==>
          LocksReleased(r, if was.lmcacheHit > was.vllmHit then was.vllmHit else was.lmcacheHit)
      // With no server over-reporting, the whole chunks found that the engine does not have remain.
      ensures var was := old(trackers)[r];
        was.state == Prefetching && was.lmcacheHit > 0 && old(adapter.IsHealthy()) && old(adapter.WithinLookup(r)) ==>
          && r in adapter.locks && adapter.locks[r].Keys == Elems(adapter.serverUrls)
          && forall u, i: nat :: u in adapter.serverUrls ==>
               (i in adapter.locks[r][u] <==>
                && was.lmcacheHit > was.vllmHit
                && was.vllmHit / adapter.tokensPerChunk <= i < was.lmcacheHit / adapter.tokensPerChunk)
    {
      var tracker := trackers[r];
      if tracker.state == Prefetching {
        SettleTracker(r);
        if tracker.lmcacheHit > 0 {
          ReleaseLocks(r, tracker);
        }
      }
    }

    // Every server locks the common chunks and no others.
    ghost predicate OnlyCommon(r: Id, tracker: Tracker)
      reads adapter`locks
    {
      && adapter.tokensPerChunk > 0 && r in adapter.locks && adapter.locks[r].Keys == Elems(adapter.serverUrls)
      && WholeTokens(tracker.lmcacheHit, adapter.tokensPerChunk)
      && forall u :: u in adapter.serverUrls ==>
           adapter.locks[r][u] == Chunks(WholeChunks(tracker.lmcacheHit, adapter.tokensPerChunk))
    }

    // The tails beyond the common count were freed when the lookup was settled.
    lemma TailsAreFreed(r: Id)
      requires Valid() && r in trackers && trackers[r].state == Prefetching && trackers[r].lmcacheHit > 0
      requires adapter.WithinLookup(r)
      ensures OnlyCommon(r, trackers[r])
    {
      assert TrackerOk(r) && adapter.RequestOk(r);
      var hits, m, n := adapter.HitsOf(r), adapter.common[r], WholeChunks(adapter.lookedUp[r], adapter.tokensPerChunk);
      Whole(m, adapter.tokensPerChunk);
      forall u | u in adapter.serverUrls
        ensures adapter.locks[r][u] == Chunks(m)
      {
        assert u in Elems(adapter.serverUrls) && u in hits;
        TailFreed(hits[u], m, n);
      }
    }

    method SettleTracker(r: Id)
      requires Valid() && r in trackers && trackers[r].state == Prefetching
      modifies this`trackers, adapter`pendingLookups, adapter`finishedLookupResults, adapter`perServerHits
      modifies adapter`lookupParams
      ensures Valid() && r !in adapter.pendingLookups
      ensures trackers == old(trackers)[r := old(trackers)[r].Allocated()]
      ensures old(trackers)[r].lmcacheHit > 0 ==>
                r in adapter.locks && adapter.locks[r].Keys == Elems(adapter.serverUrls)
      ensures old(trackers)[r].lmcacheHit > 0 && old(adapter.WithinLookup(r)) ==> OnlyCommon(r, old(trackers)[r])
    {
      assert TrackerOk(r) && adapter.RequestOk(r);
      if trackers[r].lmcacheHit > 0 && adapter.WithinLookup(r) {
        TailsAreFreed(r);
      }
      trackers := trackers[r := trackers[r].Allocated()];
      adapter.CleanupLookupResult(r);
      forall q
        ensures TrackerOk(q)
      {
        assert old(TrackerOk(q));
      }
    }

    method ReleaseLocks(r: Id, tracker: Tracker)
      requires Valid() && r !in adapter.pendingLookups && r in adapter.locks
      requires adapter.locks[r].Keys == Elems(adapter.serverUrls)
      modifies adapter`locks
      ensures Valid() && (adapter.IsHealthy() ==> LocksReleased(r, tracker.FreeEnd()))
      ensures adapter.IsHealthy() && old(OnlyCommon(r, tracker)) ==> OnlyToRetrieve(r, tracker)
    {
      if WholeTokens(tracker.lmcacheHit, adapter.tokensPerChunk) {
        LocksAfterAlloc(adapter.tokensPerChunk, tracker);
      }
      var freeEnd := if !tracker.NeedsRetrieve() then tracker.lmcacheHit else tracker.vllmHit;
      if freeEnd > 0 {
        adapter.FreeLookupLocks(r, 0, freeEnd);
      } else {
        NothingFreed(adapter.tokensPerChunk);
      }
    }
  }

  lemma NothingFreed(size: nat)
    requires size > 0
    ensures Range(0, 0, size) == {}
  {
    assert 0 / size == 0;
  }

  // The whole chunks of what was found and the engine does not have.
  function ToRetrieve(tracker: Tracker, size: nat): set<nat>
    requires size > 0
  {
    if !tracker.NeedsRetrieve() then {}
    else Chunks(WholeChunks(tracker.lmcacheHit, size)) - Chunks(WholeChunks(tracker.vllmHit, size))
  }

  predicate WholeTokens(tokens: nat, size: nat)
    requires size > 0
  {
    TokensOf(WholeChunks(tokens, size), size) == tokens
  }

  // Of the common chunks, those that remain.
  lemma LocksAfterAlloc(size: nat, tracker: Tracker)
    requires size > 0 && WholeTokens(tracker.lmcacheHit, size)
    ensures Chunks(WholeChunks(tracker.lmcacheHit, size)) - Range(0, tracker.FreeEnd(), size) ==
              ToRetrieve(tracker, size)
  {
  }
}
