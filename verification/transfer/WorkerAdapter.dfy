// The worker side of cache transfers: what is submitted, what is pending, and what
// get_finished reports, whatever the health of the server does in between.
module WorkerAdapter {

  type Id = string

  // An asynchronous retrieve: its future, and the blocks it writes.
  datatype Retrieve = Retrieve(future: nat, blocks: seq<nat>)

  // What polling the futures would answer during one call.
  datatype Polls = Polls(storesDone: set<Id>, retrievesDone: set<Id>, retrievesGood: set<Id>)

  class LMCacheMPWorkerAdapter {
    const isKvWriter: bool
    var isHealthy: bool
    var storeFutures: map<Id, nat>
    var retrieveFutures: map<Id, Retrieve>
    var droppedRetrieves: set<Id>
    var errorBlockIds: set<nat>
    var finishedStores: set<Id>
    var previouslyFinished: set<Id>
    var returnedFinished: set<Id>

    // All retrieves ever submitted and ever reported; the blocks of those outstanding; of the
    // dropped ones, the blocks handed to the engine as errors since.
    ghost var submitted: multiset<Id>
    ghost var reported: multiset<Id>
    ghost var owed: map<Id, seq<nat>>
    ghost var handedOut: map<Id, set<nat>>
    // All stores ever reported, and all ids the engine ever reported finished.
    ghost var reportedStores: multiset<Id>
    ghost var engineSeen: set<Id>

    // Every retrieve submitted is reported, pending or dropped, exactly once.
    ghost predicate Conserved()
      reads this`submitted, this`reported, this`retrieveFutures, this`droppedRetrieves, this`owed
    {
      && Balanced(submitted, reported, retrieveFutures.Keys, droppedRetrieves)
      && owed.Keys == retrieveFutures.Keys + droppedRetrieves
      && forall r :: r in retrieveFutures ==> owed[r] == retrieveFutures[r].blocks
    }

    // The engine has been told, or is about to be told, that the block holds no valid data.
    ghost predicate Surfaced(r: Id, b: nat)
      reads this`errorBlockIds, this`handedOut
    {
      b in errorBlockIds || (r in handedOut && b in handedOut[r])
    }

    // The blocks of a dropped retrieve have been flagged already.
    ghost predicate DroppedFlagged()
      reads this`droppedRetrieves, this`owed, this`errorBlockIds, this`handedOut
    {
      forall r, b :: r in droppedRetrieves && r in owed && b in owed[r] ==> Surfaced(r, b)
    }

    // Stores the engine waits for are in flight and not yet reported; none is reported twice,
    // nor before the engine had finished with it.
    ghost predicate StoresOk()
      reads this`previouslyFinished, this`storeFutures, this`returnedFinished, this`engineSeen, this`reportedStores
    {
      && previouslyFinished <= storeFutures.Keys
      && previouslyFinished !! returnedFinished
      && engineSeen == returnedFinished + previouslyFinished
      && forall r :: reportedStores[r] <= Once(returnedFinished, r)
    }

    ghost predicate Valid()
      reads this
    {
      Conserved() && DroppedFlagged() && StoresOk()
    }

    constructor (isKvWriter: bool)
      ensures Valid() && isHealthy && submitted == multiset{} && reportedStores == multiset{}
      ensures this.isKvWriter == isKvWriter
    {
      this.isKvWriter, isHealthy := isKvWriter, true;
      storeFutures, retrieveFutures, droppedRetrieves, errorBlockIds := map[], map[], {}, {};
      finishedStores, previouslyFinished, returnedFinished := {}, {}, {};
      submitted, reported, owed, handedOut := multiset{}, multiset{}, map[], map[];
      reportedStores, engineSeen := multiset{}, {};
    }

    // The heartbeat may flip the health at any time between two calls.
    method SetHealth(healthy: bool)
      requires Valid()
      modifies this`isHealthy
      ensures Valid() && isHealthy == healthy
    {
      isHealthy := healthy;
    }

    // Nothing is submitted by a worker that does not write, or to a server that is down.
    method SubmitStoreRequest(id: Id, future: nat)
      requires Valid()
      modifies this`storeFutures
      ensures Valid()
      ensures storeFutures == if isKvWriter && isHealthy then old(storeFutures)[id := future] else old(storeFutures)
    {
      if !isKvWriter {
        return;
      }
      if !isHealthy {
        return;
      }
      storeFutures := storeFutures[id := future];
    }

    // With the server down the retrieve is dropped: its blocks are flagged at once. The account
    // of retrieves stays exact precisely when none of the same id is outstanding.
    method SubmitRetrieveRequest(id: Id, future: nat, blocks: seq<nat>)
      requires Valid()
      modifies this`submitted, this`owed, this`errorBlockIds, this`droppedRetrieves, this`retrieveFutures
      ensures id !in old(owed) ==> Valid()
      ensures id in old(owed) ==> !Conserved()
      ensures submitted == old(submitted)[id := old(submitted)[id] + 1]
      ensures id in owed && owed[id] == blocks
      ensures isHealthy ==> retrieveFutures == old(retrieveFutures)[id := Retrieve(future, blocks)]
      ensures !isHealthy ==> droppedRetrieves == old(droppedRetrieves) + {id} && forall b :: b in blocks ==>
                b in errorBlockIds
    {
      ghost var was, futures, dropped, owing := submitted, retrieveFutures, droppedRetrieves, owed;
      Owe(id, blocks);
      StartRetrieve(id, future, blocks);
      CountSubmitted(was, reported, futures.Keys, dropped, id, submitted, retrieveFutures.Keys, droppedRetrieves);
      OweSubmitted(owing, futures, dropped, id, Retrieve(future, blocks), retrieveFutures, droppedRetrieves);
    }

    ghost method Owe(id: Id, blocks: seq<nat>)
      requires DroppedFlagged()
      modifies this`submitted, this`owed
      ensures submitted == old(submitted)[id := old(submitted)[id] + 1] && owed == old(owed)[id := blocks]
      ensures FlaggedExcept(id)
    {
      submitted := submitted[id := submitted[id] + 1];
      owed := owed[id := blocks];
      forall r, b | r in droppedRetrieves && r != id && r in owed && b in owed[r]
        ensures Surfaced(r, b)
      {
        assert old(Surfaced(r, b));
      }
    }

    ghost predicate FlaggedExcept(id: Id)
      reads this`droppedRetrieves, this`owed, this`errorBlockIds, this`handedOut
    {
      forall r, b :: r in droppedRetrieves && r != id && r in owed && b in owed[r] ==> Surfaced(r, b)
    }

    method StartRetrieve(id: Id, future: nat, blocks: seq<nat>)
      requires FlaggedExcept(id)
      requires id in owed && owed[id] == blocks
      modifies this`errorBlockIds, this`droppedRetrieves, this`retrieveFutures
      ensures isHealthy ==> retrieveFutures == old(retrieveFutures)[id := Retrieve(future, blocks)]
      ensures isHealthy ==> droppedRetrieves == old(droppedRetrieves) && errorBlockIds == old(errorBlockIds)
      ensures !isHealthy ==> retrieveFutures == old(retrieveFutures) && droppedRetrieves == old(droppedRetrieves) + {id}
      ensures !isHealthy || id !in old(droppedRetrieves) ==> DroppedFlagged()
      ensures !isHealthy ==> forall b :: b in blocks ==> b in errorBlockIds
    {
      if !isHealthy {
        DropRetrieve(id, blocks);
      } else {
        retrieveFutures := retrieveFutures[id := Retrieve(future, blocks)];
        assert id !in droppedRetrieves ==> forall r, b :: r in droppedRetrieves && r in owed && b in owed[r] ==>
            Surfaced(r, b);
      }
    }

    method DropRetrieve(id: Id, blocks: seq<nat>)
      requires FlaggedExcept(id)
      requires id in owed && owed[id] == blocks
      modifies this`errorBlockIds, this`droppedRetrieves
      ensures droppedRetrieves == old(droppedRetrieves) + {id} && DroppedFlagged()
      ensures forall b :: b in blocks ==> b in errorBlockIds
    {
      errorBlockIds := errorBlockIds + (set b | b in blocks);
      droppedRetrieves := droppedRetrieves + {id};
      forall r, b | r in droppedRetrieves && r in owed && b in owed[r]
        ensures Surfaced(r, b)
      {
        assert r != id ==> old(Surfaced(r, b));
      }
    }

    // Hands the flagged blocks to the engine and forgets them.
    method GetBlockIdsWithLoadErrors() returns (errors: set<nat>)
      requires Valid()
      modifies this`errorBlockIds, this`handedOut
      ensures Valid() && errors == old(errorBlockIds) && errorBlockIds == {}
      ensures forall r, b :: r in droppedRetrieves && old(Surfaced(r, b)) ==> Surfaced(r, b)
    {
      errors := errorBlockIds;
      handedOut := map r | r in handedOut.Keys + droppedRetrieves ::
          errors + if r in handedOut then handedOut[r] else {};
      errorBlockIds := {};
    }

    // The stores and retrieves done since the last call. With the server down everything pending
    // is done; one that did not succeed has all its blocks surfaced.
    method GetFinished(engine: set<Id>, polls: Polls) returns (stores: set<Id>, retrieves: set<Id>)
      requires Valid()
      modifies this
      ensures Valid() && isHealthy == old(isHealthy) && submitted == old(submitted)
      // Retrieves: those dropped, and those that have finished.
      ensures forall r :: r in retrieves <==>
                || r in old(droppedRetrieves)
                || (r in old(retrieveFutures) && (old(isHealthy) ==> r in polls.retrievesDone))
      ensures Counted(old(reported), retrieves, reported) && droppedRetrieves == {}
      ensures retrieveFutures == old(retrieveFutures) - retrieves
      ensures forall r, b :: r in retrieves && r in old(owed) && b in old(owed)[r] ==>
                || (old(isHealthy) && r in old(retrieveFutures) && r in polls.retrievesGood)
                || b in errorBlockIds || old(Surfaced(r, b))
      // Stores: of the ids the engine has finished, now or before, and that were not returned yet,
      // those with no store in flight, and those of which one has finished.
      ensures engineSeen == old(engineSeen) + engine
      ensures storeFutures.Keys == if old(isHealthy) then old(storeFutures).Keys - polls.storesDone else {}
      ensures forall r :: r in returnedFinished <==>
                || r in old(returnedFinished)
                || (&& (r in engine || r in old(previouslyFinished))
                    && (|| r !in old(storeFutures) || r in old(finishedStores)
                        || !old(isHealthy) || r in polls.storesDone))
      ensures stores == returnedFinished - old(returnedFinished) - if old(isHealthy) then {} else retrieves
      ensures forall r :: r in finishedStores <==>
                && (r in old(finishedStores) || (r in old(storeFutures) && r !in storeFutures))
                && r !in old(previouslyFinished) && (r !in engine || r in old(returnedFinished))
      ensures Counted(old(reportedStores), stores, reportedStores)
    {
      var doneStores;
      doneStores, retrieves := CollectFinished(polls);
      stores := ReportStores(doneStores, engine, if isHealthy then {} else retrieves);
    }

    // Returns the stores that are due, except those whose request ends with a retrieve.
    method ReportStores(doneStores: set<Id>, engine: set<Id>, hidden: set<Id>) returns (stores: set<Id>)
      requires previouslyFinished <= storeFutures.Keys + doneStores && doneStores !! storeFutures.Keys
      requires previouslyFinished !! returnedFinished && engineSeen == returnedFinished + previouslyFinished
      requires forall r :: reportedStores[r] <= Once(returnedFinished, r)
      modifies this`finishedStores, this`previouslyFinished, this`returnedFinished, this`engineSeen, this`reportedStores
      ensures StoresOk() && engineSeen == old(engineSeen) + engine
      ensures forall r :: r in returnedFinished <==>
                || r in old(returnedFinished)
                || (&& (r in engine || r in old(previouslyFinished))
                    && (r !in storeFutures || r in old(finishedStores) || r in doneStores))
      ensures stores == returnedFinished - old(returnedFinished) - hidden
      ensures forall r :: r in finishedStores <==>
                && (r in old(finishedStores) || r in doneStores)
                && r !in old(previouslyFinished) && (r !in engine || r in old(returnedFinished))
      ensures Counted(old(reportedStores), stores, reportedStores)
    {
      engineSeen := engineSeen + engine;
      var due := ProcessFinishedStores(doneStores, engine);
      stores := due - hidden;
      reportedStores := CountAll(reportedStores, stores);
    }

    method CollectFinished(polls: Polls) returns (stores: set<Id>, retrieves: set<Id>)
      requires Conserved() && DroppedFlagged()
      modifies this`storeFutures, this`retrieveFutures, this`errorBlockIds, this`droppedRetrieves, this`reported
      modifies this`owed, this`handedOut
      ensures Conserved() && DroppedFlagged() && droppedRetrieves == {}
      ensures stores == if isHealthy then old(storeFutures).Keys * polls.storesDone else old(storeFutures).Keys
      ensures storeFutures == old(storeFutures) - stores
      ensures retrieves == old(droppedRetrieves) +
                if isHealthy then old(retrieveFutures).Keys * polls.retrievesDone else old(retrieveFutures).Keys
      ensures retrieveFutures == old(retrieveFutures) - retrieves && Counted(old(reported), retrieves, reported)
      ensures forall r, b :: r in retrieves && r in old(owed) && b in old(owed)[r] ==>
                || (isHealthy && r in old(retrieveFutures) && r in polls.retrievesGood)
                || b in errorBlockIds || old(Surfaced(r, b))
    {
      stores, retrieves := GatherDone(polls);
      assert old(retrieveFutures).Keys !! droppedRetrieves;
      retrieves := TakeDropped(retrieves, old(retrieveFutures).Keys);
    }

    // What polling finds done; with the server down everything is given up.
    method GatherDone(polls: Polls) returns (stores: set<Id>, retrieves: set<Id>)
      requires Conserved()
      modifies this`storeFutures, this`retrieveFutures, this`errorBlockIds
      ensures stores == if isHealthy then old(storeFutures).Keys * polls.storesDone else old(storeFutures).Keys
      ensures storeFutures == old(storeFutures) - stores
      ensures retrieves ==
              if isHealthy then old(retrieveFutures).Keys * polls.retrievesDone else old(retrieveFutures).Keys
      ensures retrieveFutures == old(retrieveFutures) - retrieves
      ensures old(errorBlockIds) <= errorBlockIds
      ensures forall r, b :: r in retrieves && b in old(retrieveFutures)[r].blocks ==>
                (isHealthy && r in polls.retrievesGood) || b in errorBlockIds
    {
      if !isHealthy {
        stores := storeFutures.Keys;
        retrieves := DrainRetrieves();
        storeFutures := map[];
      } else {
        stores := PollStores(polls);
        retrieves := PollRetrieves(polls);
      }
    }

    // Every pending retrieve is given up, with its blocks flagged.
    method DrainRetrieves() returns (finished: set<Id>)
      requires Conserved()
      modifies this`retrieveFutures, this`errorBlockIds
      ensures finished == old(retrieveFutures).Keys && retrieveFutures == map[]
      ensures old(errorBlockIds) <= errorBlockIds
      ensures forall r, b :: r in finished && b in old(retrieveFutures)[r].blocks ==> b in errorBlockIds
    {
      finished := {};
      var rest := retrieveFutures.Keys;
      while rest != {}
        invariant rest <= retrieveFutures.Keys && finished == retrieveFutures.Keys - rest
        invariant retrieveFutures == old(retrieveFutures) && old(errorBlockIds) <= errorBlockIds
        invariant forall r, b :: r in finished && b in retrieveFutures[r].blocks ==> b in errorBlockIds
        decreases rest
      {
        var id :| id in rest;
        finished := finished + {id};
        errorBlockIds := errorBlockIds + (set b | b in retrieveFutures[id].blocks);
        rest := rest - {id};
      }
      retrieveFutures := map[];
    }

    method PollStores(polls: Polls) returns (finished: set<Id>)
      modifies this`storeFutures
      ensures finished == old(storeFutures).Keys * polls.storesDone
      ensures storeFutures == old(storeFutures) - finished
    {
      finished := {};
      var rest := storeFutures.Keys;
      while rest != {}
        invariant rest <= storeFutures.Keys && storeFutures == old(storeFutures)
        invariant finished == (storeFutures.Keys - rest) * polls.storesDone
        decreases rest
      {
        var id :| id in rest;
        rest := rest - {id};
        if id in polls.storesDone {
          finished := finished + {id};
        }
      }
      storeFutures := storeFutures - finished;
    }

    // A retrieve that failed flags its blocks before it is reported.
    method PollRetrieves(polls: Polls) returns (finished: set<Id>)
      modifies this`retrieveFutures, this`errorBlockIds
      ensures finished == old(retrieveFutures).Keys * polls.retrievesDone
      ensures retrieveFutures == old(retrieveFutures) - finished
      ensures old(errorBlockIds) <= errorBlockIds
      ensures forall r, b :: r in finished && b in old(retrieveFutures)[r].blocks && r !in polls.retrievesGood ==>
                b in errorBlockIds
    {
      finished := {};
      var rest := retrieveFutures.Keys;
      while rest != {}
        invariant rest <= retrieveFutures.Keys && retrieveFutures == old(retrieveFutures)
        invariant old(errorBlockIds) <= errorBlockIds
        invariant finished == (retrieveFutures.Keys - rest) * polls.retrievesDone
        invariant forall r, b :: r in finished && b in retrieveFutures[r].blocks && r !in polls.retrievesGood ==>
                  b in errorBlockIds
        decreases rest
      {
        var id :| id in rest;
        rest := rest - {id};
        if id in polls.retrievesDone {
          finished := finished + {id};
          if id !in polls.retrievesGood {
            errorBlockIds := errorBlockIds + (set b | b in retrieveFutures[id].blocks);
          }
        }
      }
      retrieveFutures := retrieveFutures - finished;
    }

    // Retrieves dropped at submit time are reported with the others.
    method TakeDropped(finished: set<Id>, ghost were: set<Id>) returns (all: set<Id>)
      requires finished + retrieveFutures.Keys == were && finished !! retrieveFutures.Keys && were !! droppedRetrieves
      requires forall r :: submitted[r] == reported[r] + Once(were, r) + Once(droppedRetrieves, r)
      requires owed.Keys == were + droppedRetrieves
      requires forall r :: r in retrieveFutures ==> owed[r] == retrieveFutures[r].blocks
      modifies this`droppedRetrieves, this`reported, this`owed, this`handedOut
      ensures all == finished + old(droppedRetrieves) && droppedRetrieves == {}
      ensures Conserved() && DroppedFlagged() && Counted(old(reported), all, reported)
    {
      all := finished + droppedRetrieves;
      ghost var before := reported;
      Taken(owed.Keys, finished, retrieveFutures.Keys, droppedRetrieves, all);
      droppedRetrieves := {};
      reported := CountAll(reported, all);
      owed, handedOut := owed - all, map[];
      forall r
        ensures submitted[r] == reported[r] + Once(retrieveFutures.Keys, r) + Once(droppedRetrieves, r)
      {
        assert reported[r] == before[r] + Once(all, r);
      }
    }

    // Merges what the cache and what the engine have finished.
    method ProcessFinishedStores(fromCache: set<Id>, engine: set<Id>) returns (ret: set<Id>)
      requires previouslyFinished <= storeFutures.Keys + fromCache && previouslyFinished !! returnedFinished
      requires fromCache !! storeFutures.Keys
      modifies this`finishedStores, this`previouslyFinished, this`returnedFinished
      // Of the ids finished by the engine, now or before, and not returned yet: those with no store
      // in flight, and those of which one has finished.
      ensures forall r :: r in ret <==>
                && r !in old(returnedFinished) && (r in engine || r in old(previouslyFinished))
                && (r !in storeFutures || r in old(finishedStores) || r in fromCache)
      ensures returnedFinished == old(returnedFinished) + ret
      // The others wait for a store in flight.
      ensures previouslyFinished == (old(previouslyFinished) + engine) - returnedFinished
      ensures previouslyFinished <= storeFutures.Keys
      // A finished store is remembered until the engine is through with its request.
      ensures forall r :: r in finishedStores <==>
                && (r in old(finishedStores) || r in fromCache)
                && r !in old(previouslyFinished) && (r !in engine || r in old(returnedFinished))
    {
      finishedStores := finishedStores + fromCache;
      ret := {};
      var rest := engine;
      while rest != {}
        invariant rest <= engine
        invariant forall r :: r in previouslyFinished <==>
                    r in old(previouslyFinished)
                        || (r in engine - rest && r !in returnedFinished && (r in finishedStores || r in storeFutures))
        invariant forall r :: r in ret <==>
                  r in engine - rest && r !in returnedFinished && r !in finishedStores && r !in storeFutures
        invariant returnedFinished == old(returnedFinished) && finishedStores == old(finishedStores) + fromCache
        decreases rest
      {
        var id :| id in rest;
        rest := rest - {id};
        if id !in returnedFinished {
          if id in finishedStores || id in storeFutures {
            previouslyFinished := previouslyFinished + {id};
          } else {
            ret := ret + {id};
          }
        }
      }
      var safe := UpdateAndGetFinishedStore();
      ret := ret + safe;
      returnedFinished := returnedFinished + ret;
    }

    method UpdateAndGetFinishedStore() returns (safe: set<Id>)
      modifies this`finishedStores, this`previouslyFinished
      ensures safe == old(finishedStores) * old(previouslyFinished)
      ensures finishedStores == old(finishedStores) - old(previouslyFinished)
      ensures previouslyFinished == old(previouslyFinished) - safe
    {
      safe := finishedStores * previouslyFinished;
      finishedStores := finishedStores - previouslyFinished;
      previouslyFinished := previouslyFinished - safe;
    }
  }

  function Once(s: set<Id>, r: Id): nat {
    if r in s then 1 else 0
  }

  // The account of retrieves: each submitted one is reported, pending or dropped.
  ghost predicate Balanced(submitted: multiset<Id>, reported: multiset<Id>, pending: set<Id>, dropped: set<Id>) {
    pending !! dropped && forall r :: submitted[r] == reported[r] + Once(pending, r) + Once(dropped, r)
  }

  // One more retrieve keeps it balanced exactly when none of the same id is outstanding.
  lemma CountSubmitted(was: multiset<Id>, reported: multiset<Id>, pending: set<Id>, dropped: set<Id>, id: Id,
                       now: multiset<Id>, pending': set<Id>, dropped': set<Id>)
    requires Balanced(was, reported, pending, dropped) && now == was[id := was[id] + 1]
    requires (pending' == pending + {id} && dropped' == dropped) || (pending' == pending && dropped' == dropped + {id})
    ensures Balanced(now, reported, pending', dropped') <==> id !in pending + dropped
  {
    assert was[id] == reported[id] + Once(pending, id) + Once(dropped, id);
    if id !in pending + dropped {
      forall r
        ensures now[r] == reported[r] + Once(pending', r) + Once(dropped', r)
      {
        assert was[r] == reported[r] + Once(pending, r) + Once(dropped, r);
      }
    }
    BalancedAt(now, reported, pending', dropped', id);
  }

  lemma BalancedAt(submitted: multiset<Id>, reported: multiset<Id>, pending: set<Id>, dropped: set<Id>, id: Id)
    ensures Balanced(submitted, reported, pending, dropped) ==>
              submitted[id] == reported[id] + Once(pending, id) + Once(dropped, id)
  {
  }

  // The blocks of the retrieve are owed from then on.
  lemma OweSubmitted(owed: map<Id, seq<nat>>, futures: map<Id, Retrieve>, dropped: set<Id>, id: Id, started: Retrieve,
                     futures': map<Id, Retrieve>, dropped': set<Id>)
    requires owed.Keys == futures.Keys + dropped && forall r :: r in futures ==> owed[r] == futures[r].blocks
    requires (futures' == futures[id := started] && dropped' == dropped)
              || (futures' == futures && dropped' == dropped + {id})
    ensures owed[id := started.blocks].Keys == futures'.Keys + dropped'
    ensures id !in owed ==> forall r :: r in futures' ==> owed[id := started.blocks][r] == futures'[r].blocks
  {
  }

  lemma Taken(owed: set<Id>, finished: set<Id>, pending: set<Id>, dropped: set<Id>, all: set<Id>)
    requires owed == finished + pending + dropped && finished !! pending && (finished + pending) !! dropped
    requires all == finished + dropped
    ensures owed - all == pending + {}
    ensures forall r :: Once(finished + pending, r) + Once(dropped, r) == Once(all, r) + Once(pending, r)
  {
  }

  ghost function CountAll(before: multiset<Id>, ids: set<Id>): (after: multiset<Id>)
    ensures Counted(before, ids, after)
  {
    before + multiset(ids)
  }

  // Each of the ids is counted once more.
  ghost predicate Counted(before: multiset<Id>, ids: set<Id>, after: multiset<Id>) {
    forall r :: after[r] == before[r] + Once(ids, r)
  }
}
