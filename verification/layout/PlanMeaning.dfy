// What the planner's functions come to, said without them: the bytes of a block, what one
// request of the maximal length occupies, and when a worker is admitted.
module PlanMeaning {
  import opened Wrappers
  import opened KVLayout
  import opened KVPlan

  // The least number of pages that holds so much memory.
  ghost predicate Least(pages: nat, page: nat, memory: nat) {
    memory <= Times(page, pages) && (pages > 0 ==> Times(page, pages - 1) < memory)
  }

  ghost predicate Largest(n: nat, s: seq<nat>) {
    n in s && forall x :: x in s ==> x <= n
  }

  function Counts(groups: seq<Group>): seq<nat> {
    seq(|groups|, i requires 0 <= i < |groups| => |groups[i].layers|)
  }

  function WidthsOf(groups: seq<Group>): seq<nat> {
    seq(|groups|, i requires 0 <= i < |groups| => groups[i].Width())
  }

  function Tuples(groups: seq<Group>): seq<nat> {
    seq(|groups|, i requires 0 <= i < |groups| => groups[i].numTuples)
  }

  function Memories(layers: seq<Layer>): seq<nat> {
    seq(|layers|, j requires 0 <= j < |layers| => layers[j].memory)
  }

  function Pages(g: Group): seq<nat> {
    seq(|g.layers|, j requires 0 <= j < |g.layers| => if g.uniform then g.layers[j].pageSize else g.pageSize)
  }

  // What each group reserves when all of them are uniform.
  function Reserved(groups: seq<Group>, tuples: nat, bytes: nat): seq<nat> {
    seq(|groups|, i requires 0 <= i < |groups| => Times(Times(tuples, groups[i].maxPages), bytes))
  }

  // ---- The recursive sums and maxima ----

  lemma LeastIs(memory: nat, page: nat, q: nat)
    requires Least(q, page, memory)
    ensures CeilDiv(memory, page) == q
  {
    if page > 0 {
      var d := CeilDiv(memory, page);
      QuotientBound(memory + page - 1, page, q);
      QuotientBound(memory + page - 1, page, q + 1);
      assert Times(page, q + 1) == Times(page, q) + page;
      assert q > 0 ==> Times(page, q) == Times(page, q - 1) + page;
      assert d == Quotient(memory + page - 1, page);
    }
  }

  lemma {:induction false} WidthIsSum(g: Group, k: nat)
    requires k <= |g.layers|
    ensures g.Offset(k) == Sum(Pages(g)[..k])
  {
    if k > 0 {
      WidthIsSum(g, k - 1);
      assert Pages(g)[..k][..k - 1] == Pages(g)[..k - 1];
    }
  }

  // One more at the end.
  lemma LargestMore(n: nat, s: seq<nat>, x: nat)
    requires Largest(n, s) || (s == [] && n == 0)
    ensures Largest(Max(n, x), s + [x])
  {
    assert (s + [x])[|s|] == x;
  }

  lemma LargestUnique(m: nat, n: nat, s: seq<nat>)
    requires Largest(m, s) && Largest(n, s)
    ensures m == n
  {
  }

  lemma {:induction false} SizeIsLargest(groups: seq<Group>)
    requires groups != []
    ensures Largest(GroupSize(groups), Counts(groups))
  {
    var front := groups[..|groups| - 1];
    if front != [] {
      SizeIsLargest(front);
    }
    LargestMore(GroupSize(front), Counts(front), |groups[|groups| - 1].layers|);
    assert Counts(groups) == Counts(front) + [|groups[|groups| - 1].layers|];
  }

  lemma {:induction false} TuplesAreLargest(groups: seq<Group>)
    requires groups != []
    ensures Largest(MostTuples(groups), Tuples(groups))
  {
    var front := groups[..|groups| - 1];
    if front != [] {
      TuplesAreLargest(front);
    }
    LargestMore(MostTuples(front), Tuples(front), groups[|groups| - 1].numTuples);
    assert Tuples(groups) == Tuples(front) + [groups[|groups| - 1].numTuples];
  }

  lemma {:induction false} StrideIsLargest(groups: seq<Group>, i: nat)
    requires 0 < i <= |groups|
    ensures Largest(Stride(groups, i), WidthsOf(groups)[..i])
  {
    if i > 1 {
      StrideIsLargest(groups, i - 1);
    }
    LargestMore(Stride(groups, i - 1), WidthsOf(groups)[..i - 1], groups[i - 1].Width());
    assert WidthsOf(groups)[..i] == WidthsOf(groups)[..i - 1] + [groups[i - 1].Width()];
  }

  lemma {:induction false} MostIsLargest(groups: seq<Group>, need: seq<nat>)
    requires groups != [] && |need| == |groups|
    requires forall i :: 0 <= i < |groups| ==> Least(need[i], groups[i].pageSize, groups[i].memory)
    ensures Largest(MostBlocks(groups), need)
  {
    var front, m := groups[..|groups| - 1], |groups| - 1;
    if front != [] {
      MostIsLargest(front, need[..m]);
    }
    LeastIs(groups[m].memory, groups[m].pageSize, need[m]);
    LargestMore(MostBlocks(front), need[..m], need[m]);
    assert need == need[..m] + [need[m]];
  }

  lemma {:induction false} AllIsSum(groups: seq<Group>, page: nat, need: seq<nat>)
    requires |need| == |groups|
    requires forall i :: 0 <= i < |groups| ==> Least(need[i], page, groups[i].memory)
    ensures AllBlocks(groups, page) == Sum(need)
  {
    if groups != [] {
      var m := |groups| - 1;
      AllIsSum(groups[..m], page, need[..m]);
      LeastIs(groups[m].memory, page, need[m]);
    }
  }

  lemma {:induction false} MemoryIsSum(layers: seq<Layer>)
    ensures LayerMemory(layers) == Sum(Memories(layers))
  {
    if layers != [] {
      MemoryIsSum(layers[..|layers| - 1]);
      assert Memories(layers)[..|layers| - 1] == Memories(layers[..|layers| - 1]);
    }
  }

  lemma {:induction false} TuplesAreSum(groups: seq<Group>, tuples: nat, bytes: nat)
    ensures TupleMemory(groups, tuples, bytes) == Sum(Reserved(groups, tuples, bytes))
  {
    if groups != [] {
      var m := |groups| - 1;
      TuplesAreSum(groups[..m], tuples, bytes);
      assert Reserved(groups, tuples, bytes)[..m] == Reserved(groups[..m], tuples, bytes);
    }
  }

  lemma {:induction false} WidthsAreSum(groups: seq<Group>)
    ensures Widths(groups) == Sum(WidthsOf(groups))
  {
    if groups != [] {
      var m := |groups| - 1;
      WidthsAreSum(groups[..m]);
      assert WidthsOf(groups)[..m] == WidthsOf(groups[..m]);
    }
  }

  // ---- The bytes of a block, and the number of blocks ----

  // Each slot of each group in lockstep; the page of a single uniform group; the widest group
  // in the packed layout; else a page for each layer of the largest group.
  ghost predicate BlockTakes(w: Worker, bytes: nat) {
    && w.groups != []
    && if w.lockstep then bytes == Sum(WidthsOf(w.groups))
       else if |w.groups| == 1 && w.groups[0].uniform then bytes == w.groups[0].pageSize
       else if |w.groups| > 1 && (w.crossLayers || forall g :: g in w.groups ==> g.uniform) then
         Largest(bytes, WidthsOf(w.groups))
       else exists size :: Largest(size, Counts(w.groups)) && bytes == Times(w.groups[0].pageSize, size)
  }

  lemma BlockTakesOne(w: Worker)
    requires w.groups != []
    ensures BlockTakes(w, w.PoolBytes())
  {
    WidthsAreSum(w.groups);
    StrideIsLargest(w.groups, |w.groups|);
    assert WidthsOf(w.groups)[..|w.groups|] == WidthsOf(w.groups);
    SizeIsLargest(w.groups);
    assert Times(w.groups[0].pageSize, GroupSize(w.groups)) == w.groups[0].pageSize * GroupSize(w.groups);
    forall i | 0 <= i < |w.groups|
      ensures w.groups[i] in w.groups
    {
    }
  }

  lemma BlockTakesIs(w: Worker, bytes: nat)
    requires w.groups != []
    ensures BlockTakes(w, bytes) <==> bytes == w.PoolBytes()
  {
    BlockTakesOne(w);
    if BlockTakes(w, bytes) && bytes != w.PoolBytes() {
      forall m: nat, n: nat, s: seq<nat> | Largest(m, s) && Largest(n, s)
        ensures m == n
      {
        LargestUnique(m, n, s);
      }
    }
  }

  // The count of a worker's own plan is the largest for which the blocks fit.
  lemma CountFits(w: Worker, bytes: nat, q: nat)
    requires BlockTakes(w, bytes) && w.Plan(None).Some?
    ensures q <= w.Plan(None).value.numBlocks <==> Times(bytes, q) <= w.available
  {
    BlockTakesIs(w, bytes);
    BlocksFit(w, q);
  }

  // The planner stops where no block takes a byte, where groups that share their pages do not
  // have pages of one size, and where a group in lockstep has empty pages.
  lemma PlanExists(w: Worker, bytes: nat, override: Option<nat>)
    requires BlockTakes(w, bytes)
    ensures w.Plan(override).Some? <==>
              && bytes > 0
              && (w.lockstep ==> forall i :: 0 <= i < |w.groups| ==> w.groups[i].pageSize > 0)
              && (w.lockstep || (|w.groups| == 1 && w.groups[0].uniform)
                  || (|w.groups| > 1 && (w.crossLayers || forall g :: g in w.groups ==> g.uniform))
                  || forall i :: 0 <= i < |w.groups| ==> w.groups[i].pageSize == w.groups[0].pageSize)
    ensures w.Plan(override).Some? && override.Some? ==> w.Plan(override).value.numBlocks == override.value
  {
    BlockTakesIs(w, bytes);
    forall i | 0 <= i < |w.groups|
      ensures w.groups[i] in w.groups
    {
    }
  }

  // ---- Admission ----

  // What may be planned with: the memory found, or that of the blocks asked for.
  ghost predicate Allowed(w: Worker, override: Option<nat>, bytes: nat, capacity: nat) {
    BlockTakes(w, bytes) && capacity == if override.Some? then Times(override.value, bytes) else w.available
  }

  lemma AllowedIs(w: Worker, override: Option<nat>, bytes: nat, capacity: nat)
    requires Allowed(w, override, bytes, capacity)
    ensures bytes == w.PoolBytes() && capacity == w.Capacity(override)
  {
    BlockTakesIs(w, bytes);
  }

  // In lockstep the group that needs most decides, each over pages of its own size.
  lemma AdmittedLockstep(w: Worker, override: Option<nat>, bytes: nat, capacity: nat, need: seq<nat>, most: nat)
    requires Allowed(w, override, bytes, capacity) && w.lockstep && |need| == |w.groups| && Largest(most, need)
    requires forall i :: 0 <= i < |need| ==> Least(need[i], w.groups[i].pageSize, w.groups[i].memory)
    ensures w.Admitted(override) <==> capacity > 0 && Times(most, bytes) <= capacity
  {
    AllowedIs(w, override, bytes, capacity);
    MostIsLargest(w.groups, need);
    LargestUnique(most, MostBlocks(w.groups), need);
  }

  // A single uniform group needs what its layers need together.
  lemma AdmittedSingle(w: Worker, override: Option<nat>, bytes: nat, capacity: nat)
    requires Allowed(w, override, bytes, capacity) && !w.lockstep && |w.groups| == 1 && w.groups[0].uniform
    ensures w.Admitted(override) <==> capacity > 0 && Sum(Memories(w.groups[0].layers)) <= capacity
  {
    AllowedIs(w, override, bytes, capacity);
    MemoryIsSum(w.groups[0].layers);
  }

  // Of several uniform groups each reserves as many layer tuples as the largest has.
  lemma AdmittedUniform(w: Worker, override: Option<nat>, bytes: nat, capacity: nat, tuples: nat)
    requires Allowed(w, override, bytes, capacity) && !w.lockstep && |w.groups| > 1
    requires (forall g :: g in w.groups ==> g.uniform) && Largest(tuples, Tuples(w.groups))
    ensures w.Admitted(override) <==>
              capacity > 0 && Sum(Reserved(w.groups, tuples, w.groups[0].tupleBytes)) <= capacity
  {
    AllowedIs(w, override, bytes, capacity);
    TuplesAreLargest(w.groups);
    LargestUnique(tuples, MostTuples(w.groups), Tuples(w.groups));
    TuplesAreSum(w.groups, tuples, w.groups[0].tupleBytes);
    forall i | 0 <= i < |w.groups|
      ensures w.groups[i].uniform
    {
      assert w.groups[i] in w.groups;
    }
  }

  // Otherwise every group needs blocks of its own, each with a page for every layer of the
  // largest group, and all groups must have pages of one size.
  lemma AdmittedMixed(w: Worker, override: Option<nat>, bytes: nat, capacity: nat, need: seq<nat>, size: nat)
    requires Allowed(w, override, bytes, capacity) && !w.lockstep && (exists g :: g in w.groups && !g.uniform)
    requires |need| == |w.groups| && Largest(size, Counts(w.groups))
    requires forall i :: 0 <= i < |need| ==> Least(need[i], w.groups[0].pageSize, w.groups[i].memory)
    ensures w.Admitted(override) <==>
              && capacity > 0
              && (forall i :: 0 <= i < |w.groups| ==> w.groups[i].pageSize == w.groups[0].pageSize)
              && Times(Times(size, w.groups[0].pageSize), Sum(need)) <= capacity
  {
    AllowedIs(w, override, bytes, capacity);
    SizeIsLargest(w.groups);
    LargestUnique(size, GroupSize(w.groups), Counts(w.groups));
    AllIsSum(w.groups, w.groups[0].pageSize, need);
    SomeNot(w);
  }

  lemma SomeNot(w: Worker)
    requires exists g :: g in w.groups && !g.uniform
    ensures !w.AllUniform() && !w.SingleUniform()
  {
    var g :| g in w.groups && !g.uniform;
    var i :| 0 <= i < |w.groups| && w.groups[i] == g;
  }

  // The blocks that one request of the maximal length occupies: in lockstep the same ones for
  // all groups, else blocks of their own for each group.
  ghost predicate Occupies(w: Worker, need: seq<nat>, blocks: nat) {
    && w.groups != [] && |need| == |w.groups|
    && if w.lockstep then
         && Largest(blocks, need)
         && forall i :: 0 <= i < |need| ==> Least(need[i], w.groups[i].pageSize, w.groups[i].memory)
       else
         && blocks == Sum(need) && (exists g :: g in w.groups && !g.uniform)
         && forall i :: 0 <= i < |need| ==> Least(need[i], w.groups[0].pageSize, w.groups[i].memory)
  }

  lemma OccupiesIs(w: Worker, need: seq<nat>, blocks: nat)
    requires Occupies(w, need, blocks)
    ensures w.CountsBlocks() && w.Required() == blocks
  {
    if w.lockstep {
      MostIsLargest(w.groups, need);
      LargestUnique(blocks, MostBlocks(w.groups), need);
    } else {
      AllIsSum(w.groups, w.groups[0].pageSize, need);
      SomeNot(w);
    }
  }

  // An admitted worker has the blocks for such a request.
  lemma RequestFits(w: Worker, need: seq<nat>, blocks: nat)
    requires w.Ok() && w.Admitted(None) && w.Plan(None).Some? && Occupies(w, need, blocks)
    ensures blocks <= w.Plan(None).value.numBlocks
  {
    OccupiesIs(w, need, blocks);
    AdmissionImpliesCapacity(w);
  }

  // So has every worker after all have been brought to one count.
  lemma RequestFitsAll(workers: seq<Worker>, needs: seq<seq<nat>>, blocks: nat)
    requires workers != [] && |needs| == |workers| && ConfigsOf(workers, None).Some?
    requires forall i :: 0 <= i < |workers| ==> workers[i].Ok()
    requires forall i :: 0 <= i < |workers| ==> exists b :: blocks <= b && Occupies(workers[i], needs[i], b)
    ensures |ConfigsOf(workers, None).value| == |workers|
    ensures forall i :: 0 <= i < |workers| ==> blocks <= ConfigsOf(workers, None).value[i].numBlocks
  {
    forall i | 0 <= i < |workers|
      ensures workers[i].CountsBlocks() && blocks <= workers[i].Required()
    {
      var b :| blocks <= b && Occupies(workers[i], needs[i], b);
      OccupiesIs(workers[i], needs[i], b);
    }
    CommonCountSuffices(workers, blocks);
  }

  // The planner goes through exactly when each worker is admitted, has a plan, and holds one
  // block, unless the count is given or there is nothing to hold.
  lemma ConfigsExist(workers: seq<Worker>, override: Option<nat>, bytes: seq<nat>)
    requires workers != [] && |bytes| == |workers|
    requires forall i :: 0 <= i < |workers| ==>
               workers[i].Ok() && (workers[i].groups != [] ==> BlockTakes(workers[i], bytes[i]))
    ensures ConfigsOf(workers, override).Some? <==>
              forall i :: 0 <= i < |workers| ==>
                && workers[i].Admitted(override) && workers[i].Plan(override).Some?
                && (override.Some? || workers[i].groups == [] || bytes[i] <= workers[i].available
                    || (!workers[i].lockstep && |workers[i].groups| == 1 && workers[i].groups[0].uniform
                        && workers[i].groups[0].layers == []))
  {
    ConfigsExistIff(workers, override);
    forall i | 0 <= i < |workers| && workers[i].Plannable()
      ensures workers[i].HoldsOne() <==>
              workers[i].groups == [] || bytes[i] <= workers[i].available
              || (!workers[i].lockstep && |workers[i].groups| == 1 && workers[i].groups[0].uniform
                  && workers[i].groups[0].layers == [])
    {
      if workers[i].groups != [] {
        BlockTakesIs(workers[i], bytes[i]);
        NothingToHold(workers[i]);
      }
    }
  }

  lemma NothingToHold(w: Worker)
    requires w.Ok() && w.groups != [] && w.Plannable()
    ensures w.PerBlock() == [] <==>
            !w.lockstep && |w.groups| == 1 && w.groups[0].uniform && w.groups[0].layers == []
  {
    if w.lockstep {
      SlotTensorsSized(w.groups, |w.groups|, 0);
      assert w.groups[..|w.groups|] == w.groups;
    } else if w.SingleUniform() {
      PageBytesLength(w.groups[0], |w.groups[0].layers|);
    } else if w.Packed() {
      StrideIsLargest(w.groups, |w.groups|);
      SomeTensor(w.groups);
    } else {
      assert GroupSize(w.groups) > 0;
    }
  }

  // A slab with any bytes has a tensor.
  lemma SomeTensor(groups: seq<Group>)
    requires Stride(groups, |groups|) > 0
    ensures |Slab(groups, 0)| > 0
  {
    var i := |groups|;
    StrideIsLargest(groups, i);
    var widths := WidthsOf(groups)[..i];
    var g :| 0 <= g < |widths| && widths[g] == Stride(groups, i);
    LayerListed(groups, i, g, 0);
    var x := TensorAt(groups, Stride(groups, i) + 1, 0, 0);
  }
}
