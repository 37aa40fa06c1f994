// Looking a request up on several cache servers, and the read locks this leaves on them.
module SchedulerLookup {
  import opened Wrappers
  import opened Seqs

  type Id = string
  type Url = string
  type Token = int

  // What one status query would bring: no answer in time, not done yet, or the final count.
  datatype Answer = TimedOut | NotDone | Hits(chunks: nat)

  function With(hits: map<Url, nat>, u: Url, n: nat): map<Url, nat> {
    hits[u := n]
  }

  function GetOr(results: map<Id, nat>, r: Id, default: nat): nat {
    if r in results then results[r] else default
  }

  // The smallest count.
  ghost predicate IsMin(hits: map<Url, nat>, m: nat) {
    (exists u :: u in hits && hits[u] == m) && forall u :: u in hits ==> m <= hits[u]
  }

  function TokensOf(chunks: nat, size: nat): nat {
    chunks * size
  }

  function WholeChunks(tokens: nat, size: nat): nat
    requires size > 0
  {
    tokens / size
  }

  // The first n chunks.
  function Chunks(n: nat): (s: set<nat>)
    ensures forall i: nat :: i in s <==> i < n
  {
    if n == 0 then {} else Chunks(n - 1) + {n - 1}
  }

  // The chunks of a freed token range: a partial first chunk counts, a partial last one does not.
  function Range(start: nat, end: nat, size: nat): (chunks: set<nat>)
    requires size > 0
    ensures forall i: nat :: i in chunks <==> start / size <= i < end / size
  {
    set i | i in Chunks(end / size) && start / size <= i
  }

  // What a server with h hits still locks once the tail beyond the common count m is freed:
  // the first m chunks, when it reported no more chunks than the n that were looked up.
  function AfterTail(h: nat, m: nat, n: nat): set<nat> {
    set i | i in Chunks(h) && (i < m || i >= n)
  }

  lemma TailFreed(h: nat, m: nat, n: nat)
    requires m <= h <= n
    ensures AfterTail(h, m, n) == Chunks(m)
  {
  }

  class LMCacheMPSchedulerAdapter {
    const serverUrls: seq<Url>
    const tokensPerChunk: nat
    var healthy: map<Url, bool>
    var pendingLookups: set<Id>
    var finishedLookupResults: map<Id, nat>
    var perServerHits: map<Id, map<Url, nat>>
    var lookupParams: map<Id, seq<Token>>

    // Per request: the chunks each server holds locked, as far as its answer is known, the
    // number of tokens looked up, and the common number of chunks once it is known.
    ghost var locks: map<Id, map<Url, set<nat>>>
    ghost var lookedUp: map<Id, nat>
    ghost var common: map<Id, nat>
    // Every status query ever sent.
    ghost var queries: seq<(Id, Url)>

    predicate IsHealthy()
      reads this`healthy
    {
      forall u :: u in healthy ==> healthy[u]
    }

    ghost function HitsOf(r: Id): map<Url, nat>
      reads this`perServerHits
    {
      if r in perServerHits then perServerHits[r] else map[]
    }

    // Before the answer is settled each server locks all its hits.
    ghost predicate Open(r: Id)
      reads this`perServerHits, this`lookupParams, this`locks, this`lookedUp
    {
      && r in locks && r in lookedUp && r in lookupParams && lookedUp[r] == |lookupParams[r]|
      && HitsOf(r).Keys <= Elems(serverUrls) && locks[r].Keys == HitsOf(r).Keys
      && forall u :: u in HitsOf(r) ==> locks[r][u] == Chunks(HitsOf(r)[u])
    }

    // Afterwards all servers have answered, the result is their smallest count, and the tails
    // beyond it are freed.
    ghost predicate Settled(r: Id)
      reads this`perServerHits, this`locks, this`lookedUp, this`common, this`finishedLookupResults
    {
      && r in locks && r in lookedUp && r in common && r in finishedLookupResults && tokensPerChunk > 0
      && HitsOf(r).Keys == Elems(serverUrls) == locks[r].Keys && IsMin(HitsOf(r), common[r])
      && finishedLookupResults[r] == TokensOf(common[r], tokensPerChunk)
      && forall u :: u in HitsOf(r) ==>
           locks[r][u] == AfterTail(HitsOf(r)[u], common[r], WholeChunks(lookedUp[r], tokensPerChunk))
    }

    ghost predicate RequestOk(r: Id)
      reads this`perServerHits, this`locks, this`lookedUp, this`common, this`finishedLookupResults, this`lookupParams
      reads this`pendingLookups
    {
      if r in pendingLookups then if r in finishedLookupResults then Settled(r) else Open(r)
      else r !in perServerHits && r !in finishedLookupResults && r !in lookupParams
    }

    ghost predicate Valid()
      reads this
    {
      tokensPerChunk > 0 && serverUrls != [] && healthy.Keys == Elems(serverUrls) && forall r :: RequestOk(r)
    }

    constructor (serverUrls: seq<Url>, tokensPerChunk: nat)
      requires serverUrls != [] && tokensPerChunk > 0
      ensures Valid() && IsHealthy() && this.serverUrls == serverUrls && this.tokensPerChunk == tokensPerChunk
    {
      this.serverUrls, this.tokensPerChunk := serverUrls, tokensPerChunk;
      healthy := map u | u in serverUrls :: true;
      pendingLookups, finishedLookupResults, perServerHits, lookupParams := {}, map[], map[], map[];
      locks, lookedUp, common, queries := map[], map[], map[], [];
    }

    // Starts a lookup, unless a server is down or one of the same id is under way; silent
    // names the servers that do not answer in time, the first of which counts as down.
    method MaybeSubmitLookupRequest(r: Id, tokens: seq<Token>, silent: set<Url>)
      requires Valid()
      modifies this`healthy, this`pendingLookups, this`lookupParams, this`locks, this`lookedUp
      ensures Valid()
      ensures var starts := old(IsHealthy()) && r !in old(pendingLookups) && forall u :: u in serverUrls ==>
                u !in silent;
        && pendingLookups == (if starts then old(pendingLookups) + {r} else old(pendingLookups))
        && lookupParams == (if starts then old(lookupParams)[r := tokens] else old(lookupParams))
      ensures healthy == old(healthy) ||
                exists u :: u in serverUrls && u in silent && healthy == old(healthy)[u := false]
      ensures old(IsHealthy()) ==>
                (IsHealthy() <==> r in old(pendingLookups) || forall u :: u in serverUrls ==> u !in silent)
      ensures !old(IsHealthy()) || r in old(pendingLookups) ==> healthy == old(healthy)
    {
      if !IsHealthy() {
        return;
      }
      if r in pendingLookups {
        return;
      }
      for i := 0 to |serverUrls|
        invariant forall j :: 0 <= j < i ==> serverUrls[j] !in silent
      {
        if serverUrls[i] in silent {
          MarkDown(serverUrls[i]);
          return;
        }
      }
      assert RequestOk(r);
      pendingLookups := pendingLookups + {r};
      lookupParams := lookupParams[r := tokens];
      locks, lookedUp := locks[r := map[]], lookedUp[r := |tokens|];
      forall q
        ensures RequestOk(q)
      {
        assert q != r ==> old(RequestOk(q));
      }
    }

    method MarkDown(u: Url)
      requires u in healthy
      modifies this`healthy
      ensures healthy == old(healthy)[u := false] && !IsHealthy()
    {
      healthy := healthy[u := false];
      assert !healthy[u];
    }

    // The heartbeat's view of a server changes between calls.
    method SetHealth(u: Url, up: bool)
      requires Valid() && u in healthy
      modifies this`healthy
      ensures Valid() && healthy == old(healthy)[u := up]
    {
      healthy := healthy[u := up];
    }

    // The matched token count, None while servers are still at work. Servers that have
    // answered are not polled again.
    method CheckLookupResult(r: Id, answers: map<Url, Answer>) returns (res: Option<nat>)
      requires Valid() && answers.Keys >= Elems(serverUrls)
      modifies this`healthy, this`perServerHits, this`locks, this`common, this`finishedLookupResults, this`lookupParams
      modifies this`queries
      ensures Valid()
      ensures old(queries) <= queries
      ensures forall i :: |old(queries)| <= i < |queries| ==>
                queries[i].0 == r && queries[i].1 in serverUrls && queries[i].1 !in old(HitsOf(r))
      ensures forall u :: u in old(HitsOf(r)) ==> u in HitsOf(r) && HitsOf(r)[u] == old(HitsOf(r))[u]
      ensures forall q :: q in old(finishedLookupResults) ==>
                q in finishedLookupResults && finishedLookupResults[q] == old(finishedLookupResults)[q]
      // Nothing happens for a request without lookup, on a server failure, or once settled.
      ensures r !in pendingLookups ==> res == Some(0)
      ensures r in pendingLookups && !old(IsHealthy()) ==> res == Some(0)
      ensures r in pendingLookups && old(IsHealthy()) && r in old(finishedLookupResults) ==>
                res == Some(old(finishedLookupResults)[r])
      ensures r !in pendingLookups || !old(IsHealthy()) || r in old(finishedLookupResults) ==>
                queries == old(queries) && finishedLookupResults == old(finishedLookupResults)
                    && healthy == old(healthy)
      // Otherwise the answer is None, or the common count in tokens, kept for later calls; or
      // a server has just gone down.
      ensures r in pendingLookups && old(IsHealthy()) && r !in old(finishedLookupResults) ==>
                || (!IsHealthy() && res == Some(0) && finishedLookupResults == old(finishedLookupResults))
                || (res.None? && r !in finishedLookupResults && |HitsOf(r)| < |serverUrls| && healthy == old(healthy))
                || (r in finishedLookupResults && res == Some(finishedLookupResults[r]) && healthy == old(healthy))
      // A server goes down exactly when one of those asked does not answer in time.
      ensures r in pendingLookups && old(IsHealthy()) && r !in old(finishedLookupResults) ==>
                (IsHealthy() <==> forall u :: u in serverUrls && u !in old(HitsOf(r)) ==> !answers[u].TimedOut?)
      // The result is the smallest of the counts.
      ensures r in pendingLookups && old(IsHealthy()) && IsHealthy() && res.Some? ==>
                && (forall u :: u in serverUrls ==> u in HitsOf(r))
                && exists u :: u in HitsOf(r) && res.value == TokensOf(HitsOf(r)[u], tokensPerChunk)
                               && forall v :: v in HitsOf(r) ==> HitsOf(r)[u] <= HitsOf(r)[v]
      ensures r in pendingLookups && old(IsHealthy()) && r !in old(finishedLookupResults) && IsHealthy() ==>
                forall u :: u in HitsOf(r) <==> u in old(HitsOf(r)) || Reported(u, answers)
      ensures forall u :: u in HitsOf(r) && u !in old(HitsOf(r)) ==>
                Reported(u, answers) && HitsOf(r)[u] == answers[u].chunks
    {
      assert RequestOk(r);
      if r !in pendingLookups {
        return Some(GetOr(finishedLookupResults, r, 0));
      }
      if !IsHealthy() {
        return Some(0);
      }
      if r in finishedLookupResults {
        return Some(finishedLookupResults[r]);
      }
      SetDefault(r);
      var ok := PollServers(r, answers);
      if !ok {
        return Some(0);
      }
      if |perServerHits[r]| < |serverUrls| {
        return None;
      }
      var count := Settle(r);
      assert RequestOk(r);
      return Some(count);
    }

    ghost predicate Reported(u: Url, answers: map<Url, Answer>) {
      u in serverUrls && u in answers && answers[u].Hits?
    }

    method SetDefault(r: Id)
      requires Valid() && r in pendingLookups
      modifies this`perServerHits
      ensures Valid() && r in perServerHits && perServerHits[r] == old(HitsOf(r))
    {
      if r !in perServerHits {
        perServerHits := perServerHits[r := map[]];
        forall q
          ensures RequestOk(q)
        {
          assert old(RequestOk(q));
        }
      }
    }

    // One status query to each server not heard yet.
    method SendQueries(r: Id) returns (unresolved: seq<Url>)
      requires r in perServerHits
      modifies this`queries
      ensures forall u :: u in unresolved <==> u in serverUrls && u !in perServerHits[r]
      ensures old(queries) <= queries && |queries| == |old(queries)| + |unresolved|
      ensures forall i :: 0 <= i < |unresolved| ==> queries[|old(queries)| + i] == (r, unresolved[i])
    {
      unresolved := [];
      for i := 0 to |serverUrls|
        invariant forall u :: u in unresolved <==> u in serverUrls[..i] && u !in perServerHits[r]
        invariant old(queries) <= queries && |queries| == |old(queries)| + |unresolved|
        invariant forall j :: 0 <= j < |unresolved| ==> queries[|old(queries)| + j] == (r, unresolved[j])
      {
        assert serverUrls[..i + 1] == serverUrls[..i] + [serverUrls[i]];
        if serverUrls[i] !in perServerHits[r] {
          unresolved := unresolved + [serverUrls[i]];
          queries := queries + [(r, serverUrls[i])];
        }
      }
      assert serverUrls[..|serverUrls|] == serverUrls;
    }

    // Asks the servers not heard yet, and takes in their answers until one fails to answer.
    method PollServers(r: Id, answers: map<Url, Answer>) returns (ok: bool)
      requires Valid() && answers.Keys >= Elems(serverUrls)
      requires r in pendingLookups && r !in finishedLookupResults && r in perServerHits
      modifies this`healthy, this`perServerHits, this`locks, this`queries
      ensures Valid() && r in perServerHits
      ensures old(queries) <= queries
      ensures forall i :: |old(queries)| <= i < |queries| ==>
                queries[i].0 == r && queries[i].1 in serverUrls && queries[i].1 !in old(perServerHits)[r]
      ensures forall u :: u in serverUrls && u !in old(perServerHits)[r] ==> exists i ::
                |old(queries)| <= i < |queries| && queries[i] == (r, u)
      ensures forall u :: u in old(perServerHits)[r] ==>
                u in perServerHits[r] && perServerHits[r][u] == old(perServerHits)[r][u]
      ensures if ok then healthy == old(healthy) else !IsHealthy()
      ensures ok <==> forall u :: u in serverUrls && u !in old(perServerHits)[r] ==> !answers[u].TimedOut?
      ensures ok ==> forall u :: u in perServerHits[r] <==> u in old(perServerHits)[r] || Reported(u, answers)
      ensures forall u :: u in perServerHits[r] && u !in old(perServerHits)[r] ==>
                Reported(u, answers) && perServerHits[r][u] == answers[u].chunks
    {
      var unresolved := SendQueries(r);
      forall u | u in serverUrls && u !in perServerHits[r]
        ensures exists i :: |old(queries)| <= i < |queries| && queries[i] == (r, u)
      {
        var k :| 0 <= k < |unresolved| && unresolved[k] == u;
        assert queries[|old(queries)| + k] == (r, u);
      }
      forall i | |old(queries)| <= i < |queries|
        ensures queries[i].0 == r && queries[i].1 in serverUrls && queries[i].1 !in old(perServerHits)[r]
      {
        assert queries[i] == (r, unresolved[i - |old(queries)|]);
      }
      ok := TakeAnswers(r, unresolved, answers);
    }

    method TakeAnswers(r: Id, unresolved: seq<Url>, answers: map<Url, Answer>) returns (ok: bool)
      requires Valid() && answers.Keys >= Elems(serverUrls)
      requires r in pendingLookups && r !in finishedLookupResults && r in perServerHits
      requires forall u :: u in unresolved <==> u in serverUrls && u !in perServerHits[r]
      modifies this`healthy, this`perServerHits, this`locks
      ensures Valid() && r in perServerHits
      ensures forall u :: u in old(perServerHits)[r] ==>
                u in perServerHits[r] && perServerHits[r][u] == old(perServerHits)[r][u]
      ensures if ok then healthy == old(healthy) else !IsHealthy()
      ensures ok <==> forall u :: u in serverUrls && u !in old(perServerHits)[r] ==> !answers[u].TimedOut?
      ensures ok ==> forall u :: u in perServerHits[r] <==> u in old(perServerHits)[r] || Reported(u, answers)
      ensures forall u :: u in perServerHits[r] && u !in old(perServerHits)[r] ==>
                Reported(u, answers) && perServerHits[r][u] == answers[u].chunks
    {
      for i := 0 to |unresolved|
        invariant Valid() && r in perServerHits && healthy == old(healthy)
        invariant forall j :: 0 <= j < i && answers[unresolved[j]].Hits? ==> unresolved[j] in perServerHits[r]
        invariant forall j :: 0 <= j < i ==> !answers[unresolved[j]].TimedOut?
        invariant forall u :: u in perServerHits[r] && u !in old(perServerHits)[r] ==>
                  Reported(u, answers) && perServerHits[r][u] == answers[u].chunks
        invariant forall u :: u in old(perServerHits)[r] ==>
                  u in perServerHits[r] && perServerHits[r][u] == old(perServerHits)[r][u]
      {
        var u := unresolved[i];
        assert u in Elems(serverUrls);
        match answers[u] {
          case TimedOut =>
            MarkDown(u);
            return false;
          case NotDone =>
          case Hits(n) =>
            Record(r, u, n);
        }
      }
      forall u | Reported(u, answers) && u !in old(perServerHits)[r]
        ensures u in perServerHits[r]
      {
        var k :| 0 <= k < |unresolved| && unresolved[k] == u;
      }
      return true;
    }

    // A server's final count, for which it holds as many chunks locked.
    method Record(r: Id, u: Url, n: nat)
      requires Valid() && u in serverUrls && r in pendingLookups && r !in finishedLookupResults && r in perServerHits
      modifies this`perServerHits, this`locks
      ensures Valid() && perServerHits == old(perServerHits)[r := With(old(perServerHits)[r], u, n)]
    {
      assert RequestOk(r);
      perServerHits := perServerHits[r := With(perServerHits[r], u, n)];
      locks := locks[r := locks[r][u := Chunks(n)]];
      forall q
        ensures RequestOk(q)
      {
        assert q != r ==> old(RequestOk(q));
      }
    }

    // All servers have answered: the smallest count is the result.
    method Settle(r: Id) returns (count: nat)
      requires Valid() && r in pendingLookups && r !in finishedLookupResults
      requires r in perServerHits && |perServerHits[r]| >= |serverUrls|
      modifies this`locks, this`common, this`finishedLookupResults, this`lookupParams
      ensures Valid() && r in finishedLookupResults && count == finishedLookupResults[r]
      ensures forall q :: q in old(finishedLookupResults) ==>
                q in finishedLookupResults && finishedLookupResults[q] == old(finishedLookupResults)[q]
    {
      assert RequestOk(r);
      AllAnswered(perServerHits[r].Keys, serverUrls);
      var lo, hi := Extremes(perServerHits[r]);
      FreeTails(r, lo, hi);
      count := TokensOf(lo, tokensPerChunk);
      Finish(r, lo, count);
    }

    // Servers that disagree release what is beyond the smallest count.
    method FreeTails(r: Id, lo: nat, hi: nat)
      requires Valid() && r in pendingLookups && r !in finishedLookupResults && r in perServerHits
      requires lo <= hi && forall u :: u in perServerHits[r] ==> lo <= perServerHits[r][u] <= hi
      modifies this`locks, this`lookupParams
      ensures forall q :: q != r ==> RequestOk(q)
      ensures r in locks && r in lookedUp && locks[r].Keys == HitsOf(r).Keys
      ensures forall u :: u in HitsOf(r) ==>
                locks[r][u] == AfterTail(HitsOf(r)[u], lo, WholeChunks(lookedUp[r], tokensPerChunk))
    {
      assert RequestOk(r);
      if lo != hi {
        FreeInconsistentLookupLocks(r, lo);
      } else {
        forall u | u in HitsOf(r)
          ensures locks[r][u] == AfterTail(HitsOf(r)[u], lo, WholeChunks(lookedUp[r], tokensPerChunk))
        {
          assert HitsOf(r)[u] == lo;
        }
      }
      forall q | q != r
        ensures RequestOk(q)
      {
        assert old(RequestOk(q));
      }
    }

    method Finish(r: Id, ghost m: nat, count: nat)
      requires tokensPerChunk > 0 && r in pendingLookups && r in locks && r in lookedUp
      requires count == TokensOf(m, tokensPerChunk)
      requires HitsOf(r).Keys == Elems(serverUrls) == locks[r].Keys && IsMin(HitsOf(r), m)
      requires forall u :: u in HitsOf(r) ==>
                locks[r][u] == AfterTail(HitsOf(r)[u], m, WholeChunks(lookedUp[r], tokensPerChunk))
      requires forall q :: q != r ==> RequestOk(q)
      modifies this`common, this`finishedLookupResults
      ensures finishedLookupResults == old(finishedLookupResults)[r := count] && forall q :: RequestOk(q)
    {
      common := common[r := m];
      finishedLookupResults := finishedLookupResults[r := count];
      forall q
        ensures RequestOk(q)
      {
        assert q != r ==> old(RequestOk(q));
      }
    }

    static method Extremes(hits: map<Url, nat>) returns (lo: nat, hi: nat)
      requires hits != map[]
      ensures IsMin(hits, lo) && (exists u :: u in hits && hits[u] == hi) && forall u :: u in hits ==> hits[u] <= hi
    {
      var first :| first in hits;
      lo, hi := hits[first], hits[first];
      var rest := hits.Keys;
      while rest != {}
        invariant rest <= hits.Keys && (exists u :: u in hits && hits[u] == lo)
        invariant (exists u :: u in hits && hits[u] == hi)
        invariant forall u :: u in hits ==> u in rest || lo <= hits[u] <= hi
        decreases rest
      {
        var u :| u in rest;
        if hits[u] < lo {
          lo := hits[u];
        }
        if hits[u] > hi {
          hi := hits[u];
        }
        rest := rest - {u};
      }
    }

    // Frees the chunks beyond m on every server that reported more.
    method FreeInconsistentLookupLocks(r: Id, m: nat)
      requires tokensPerChunk > 0 && r in perServerHits && Open(r)
      modifies this`locks, this`lookupParams
      ensures lookupParams == old(lookupParams) - {r} && locks.Keys == old(locks).Keys
      ensures locks[r].Keys == HitsOf(r).Keys && forall q :: q in locks && q != r ==> locks[q] == old(locks)[q]
      ensures forall u :: u in perServerHits[r] ==>
                locks[r][u] == AfterTail(perServerHits[r][u], m, WholeChunks(lookedUp[r], tokensPerChunk))
    {
      var tokens := lookupParams[r];
      lookupParams := lookupParams - {r};
      var hits := perServerHits[r];
      var rest := hits.Keys;
      while rest != {}
        invariant rest <= hits.Keys && lookupParams == old(lookupParams) - {r}
        invariant locks.Keys == old(locks).Keys && locks[r].Keys == hits.Keys
        invariant forall q :: q in locks && q != r ==> locks[q] == old(locks)[q]
        invariant forall u :: u in rest ==> locks[r][u] == Chunks(hits[u])
        invariant forall u :: u in hits && u !in rest ==>
                  locks[r][u] == AfterTail(hits[u], m, WholeChunks(|tokens|, tokensPerChunk))
        decreases rest
      {
        var u :| u in rest;
        rest := rest - {u};
        FreeTail(r, u, hits[u], m, |tokens|);
      }
    }

    // One server's tail, if it has one.
    method FreeTail(r: Id, u: Url, h: nat, m: nat, tokens: nat)
      requires tokensPerChunk > 0 && r in locks && u in locks[r] && locks[r][u] == Chunks(h)
      modifies this`locks
      ensures locks == old(locks)[r := old(locks)[r][u := AfterTail(h, m, WholeChunks(tokens, tokensPerChunk))]]
    {
      if h <= m {
        assert Chunks(h) == AfterTail(h, m, WholeChunks(tokens, tokensPerChunk));
        assert locks[r] == locks[r][u := Chunks(h)];
        return;
      }
      var start := TokensOf(m, tokensPerChunk);
      var end := if TokensOf(h, tokensPerChunk) < tokens then TokensOf(h, tokensPerChunk) else tokens;
      TailRange(h, m, tokensPerChunk, tokens);
      FreeOn(r, u, start, end);
    }

    // A server drops its locks on the chunks of a token range.
    ghost method FreeOn(r: Id, u: Url, start: nat, end: nat)
      requires tokensPerChunk > 0 && r in locks && u in locks[r]
      modifies this`locks
      ensures locks == old(locks)[r := old(locks)[r][u := old(locks)[r][u] - Range(start, end, tokensPerChunk)]]
    {
      locks := locks[r := locks[r][u := locks[r][u] - Range(start, end, tokensPerChunk)]];
    }

    // No server has reported more chunks than were looked up.
    ghost predicate WithinLookup(r: Id)
      reads this`perServerHits, this`lookedUp
    {
      tokensPerChunk > 0 && r in lookedUp && forall u :: u in HitsOf(r) ==>
          HitsOf(r)[u] <= WholeChunks(lookedUp[r], tokensPerChunk)
    }

    // Forgets the lookup of a request.
    method CleanupLookupResult(r: Id)
      requires Valid()
      modifies this`pendingLookups, this`finishedLookupResults, this`perServerHits, this`lookupParams
      ensures Valid() && pendingLookups == old(pendingLookups) - {r}
      ensures finishedLookupResults == old(finishedLookupResults) - {r}
      ensures perServerHits == old(perServerHits) - {r} && lookupParams == old(lookupParams) - {r}
    {
      pendingLookups := pendingLookups - {r};
      finishedLookupResults := finishedLookupResults - {r};
      perServerHits := perServerHits - {r};
      lookupParams := lookupParams - {r};
      forall q
        ensures RequestOk(q)
      {
        assert q != r ==> old(RequestOk(q));
      }
    }

    // Frees the chunks of a token range on every server, unless one is down.
    method FreeLookupLocks(r: Id, start: nat, end: nat)
      requires Valid() && r !in pendingLookups && r in locks && locks[r].Keys == Elems(serverUrls)
      modifies this`locks
      ensures Valid() && locks.Keys == old(locks).Keys && locks[r].Keys == Elems(serverUrls)
      ensures forall q :: q in locks && q != r ==> locks[q] == old(locks)[q]
      ensures forall u :: u in serverUrls ==>
                locks[r][u] == old(locks)[r][u] - if IsHealthy() then Range(start, end, tokensPerChunk) else {}
    {
      if !IsHealthy() {
        return;
      }
      for i := 0 to |serverUrls|
        invariant locks.Keys == old(locks).Keys && locks[r].Keys == Elems(serverUrls)
        invariant forall q :: q in locks && q != r ==> locks[q] == old(locks)[q]
        invariant forall u :: u in serverUrls[..i] ==>
                  locks[r][u] == old(locks)[r][u] - Range(start, end, tokensPerChunk)
        invariant forall u :: u in serverUrls && u !in serverUrls[..i] ==> locks[r][u] == old(locks)[r][u]
      {
        assert serverUrls[..i + 1] == serverUrls[..i] + [serverUrls[i]];
        FreeOn(r, serverUrls[i], start, end);
      }
      assert serverUrls[..|serverUrls|] == serverUrls;
      forall q
        ensures RequestOk(q)
      {
        assert old(RequestOk(q));
      }
    }
  }

  // As many answers as servers means every server has answered.
  lemma AllAnswered(answered: set<Url>, urls: seq<Url>)
    requires answered <= Elems(urls) && |answered| >= |urls|
    ensures answered == Elems(urls)
  {
    ElemsSize(urls);
    if answered != Elems(urls) {
      var u :| u in Elems(urls) && u !in answered;
      SubsetSize(answered + {u}, Elems(urls));
    }
  }

  lemma {:induction false} ElemsSize(urls: seq<Url>)
    ensures |Elems(urls)| <= |urls|
  {
    if urls != [] {
      ElemsSize(urls[1..]);
      assert urls == [urls[0]] + urls[1..];
      assert Elems(urls) == {urls[0]} + Elems(urls[1..]);
    }
  }

  lemma {:induction false} SubsetSize(a: set<Url>, b: set<Url>)
    requires a <= b
    ensures |a| <= |b|
  {
    if a != {} {
      var x :| x in a;
      SubsetSize(a - {x}, b - {x});
    }
  }

  // The freed tail, in chunks.
  lemma TailRange(h: nat, m: nat, size: nat, tokens: nat)
    requires size > 0 && m < h
    ensures var end := if TokensOf(h, size) < tokens then TokensOf(h, size) else tokens;
      Chunks(h) - Range(TokensOf(m, size), end, size) == AfterTail(h, m, WholeChunks(tokens, size))
  {
    Whole(m, size);
    Whole(h, size);
    Fits(h, size, tokens);
  }

  lemma Whole(n: nat, size: nat)
    requires size > 0
    ensures TokensOf(n, size) / size == n
  {
    Fits(n, size, TokensOf(n, size));
    Fits(n + 1, size, TokensOf(n, size));
  }

  lemma Fits(n: nat, size: nat, tokens: nat)
    requires size > 0
    ensures TokensOf(n, size) <= tokens <==> n <= WholeChunks(tokens, size)
  {
    var q := tokens / size;
    assert tokens == q * size + tokens % size;
    if n <= q {
      assert n * size <= q * size;
    } else {
      assert (q + 1) * size <= n * size;
    }
  }
}
