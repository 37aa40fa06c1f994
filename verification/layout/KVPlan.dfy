// From the memory of each worker to one block count and the sizes of all tensors.
module KVPlan {
  import opened Wrappers
  import opened KVLayout

  // Tensors outside the packed layout have offset 0 and stride 0.
  datatype Tensor = Tensor(size: nat, sharedBy: seq<string>, offset: nat, stride: nat)

  datatype Config = Config(numBlocks: nat, tensors: seq<Tensor>)

  // The groups of one worker, which branch of the planner they take, and its memory.
  datatype Worker = Worker(groups: seq<Group>, lockstep: bool, crossLayers: bool, available: nat) {
    // Lockstep allocation needs two groups; a uniform group's page holds a page of each layer.
    ghost predicate Ok() {
      (lockstep ==> |groups| >= 2) && forall g :: g in groups && g.uniform ==> g.Width() <= g.pageSize
    }

    predicate AllUniform() {
      forall i :: 0 <= i < |groups| ==> groups[i].uniform
    }

    predicate SingleUniform() {
      |groups| == 1 && groups[0].uniform
    }

    predicate Packed() {
      !lockstep && !SingleUniform() && (AllUniform() || (crossLayers && |groups| > 1))
    }

    predicate General() {
      groups != [] && !lockstep && !SingleUniform() && !Packed()
    }

    // Bytes one block takes in the worker's pool.
    function PoolBytes(): nat
      requires groups != []
    {
      if lockstep then Widths(groups)
      else if SingleUniform() then groups[0].pageSize
      else if Packed() then Stride(groups, |groups|)
      else groups[0].pageSize * GroupSize(groups)
    }

    // The planner stops on an assertion or a division by zero otherwise.
    predicate Plannable() {
      groups == [] || (PoolBytes() > 0 && (General() ==> SamePages()) && (lockstep ==> PagesNotEmpty()))
    }

    predicate PagesNotEmpty() {
      forall i :: 0 <= i < |groups| ==> groups[i].pageSize > 0
    }

    function Blocks(override: Option<nat>): nat
      requires groups != [] && Plannable()
    {
      if override.Some? then override.value
      else if General() then Quotient(Quotient(available, groups[0].pageSize), GroupSize(groups))
      else Quotient(available, PoolBytes())
    }

    // The bytes of each tensor per block.
    function PerBlock(): seq<nat>
    {
      if groups == [] then []
      else if lockstep then SlotBytes(groups)
      else if SingleUniform() then PageBytes(groups[0], |groups[0].layers|)
      else if Packed() then Repeat(|Slab(groups, 0)|, Stride(groups, |groups|))
      else Repeat(GroupSize(groups), groups[0].pageSize)
    }

    function Plan(override: Option<nat>): Option<Config> {
      if !Plannable() then None
      else if groups == [] then Some(Config(1, []))
      else
        var n := Blocks(override);
        Some(Config(n,
          if lockstep then SlotTensors(groups, |groups|, n)
          else if SingleUniform() then LayerTensors(groups[0], |groups[0].layers|, n)
          else if Packed() then SlabFor(groups, n)
          else PoolTensors(groups, GroupSize(groups), Times(groups[0].pageSize, n))))
    }

    // What one request of the maximal length needs.
    function Needed(): nat {
      if groups == [] then 0
      else if lockstep then Times(MostBlocks(groups), PoolBytes())
      else if SingleUniform() then LayerMemory(groups[0].layers)
      else if AllUniform() then TupleMemory(groups, MostTuples(groups), groups[0].tupleBytes)
      else Times(Times(GroupSize(groups), groups[0].pageSize), AllBlocks(groups, groups[0].pageSize))
    }

    // Admission counts the blocks of a request, unless all groups are uniform.
    predicate CountsBlocks() {
      groups != [] && (lockstep || (!SingleUniform() && !AllUniform()))
    }

    // The blocks such a request occupies.
    function Required(): nat
      requires CountsBlocks()
    {
      if lockstep then MostBlocks(groups) else AllBlocks(groups, groups[0].pageSize)
    }

    // There is memory for one block, or nothing to put into it.
    predicate HoldsOne() {
      groups == [] || PerBlock() == [] || PoolBytes() <= available
    }

    // The memory planned against: the override replaces the profiled capacity.
    function Capacity(override: Option<nat>): nat {
      if override.Some? && groups != [] then Times(override.value, PoolBytes()) else available
    }

    predicate Admitted(override: Option<nat>) {
      groups == [] || (Capacity(override) > 0 && SamePages() && Needed() <= Capacity(override))
    }

    // Asserted where groups share their pages.
    predicate SamePages() {
      lockstep || AllUniform() || forall i :: 0 <= i < |groups| ==> groups[i].pageSize == groups[0].pageSize
    }
  }

  function Times(a: nat, b: nat): nat {
    a * b
  }

  // Division as the planner needs it; by zero it has stopped before.
  function Quotient(a: nat, b: nat): nat {
    if b == 0 then 0 else a / b
  }

  function CeilDiv(a: nat, b: nat): nat {
    if b == 0 then 0 else (a + b - 1) / b
  }

  function Repeat(n: nat, x: nat): seq<nat> {
    seq(n, _ => x)
  }

  function Sum(s: seq<nat>): nat {
    if s == [] then 0 else Sum(s[..|s| - 1]) + s[|s| - 1]
  }

  function Widths(groups: seq<Group>): nat {
    if groups == [] then 0 else Widths(groups[..|groups| - 1]) + groups[|groups| - 1].Width()
  }

  function GroupSize(groups: seq<Group>): nat {
    if groups == [] then 0 else Max(GroupSize(groups[..|groups| - 1]), |groups[|groups| - 1].layers|)
  }

  function MostBlocks(groups: seq<Group>): nat {
    if groups == [] then 0
    else Max(MostBlocks(groups[..|groups| - 1]), CeilDiv(groups[|groups| - 1].memory, groups[|groups| - 1].pageSize))
  }

  function AllBlocks(groups: seq<Group>, page: nat): nat {
    if groups == [] then 0 else AllBlocks(groups[..|groups| - 1], page) + CeilDiv(groups[|groups| - 1].memory, page)
  }

  function LayerMemory(layers: seq<Layer>): nat {
    if layers == [] then 0 else LayerMemory(layers[..|layers| - 1]) + layers[|layers| - 1].memory
  }

  function MostTuples(groups: seq<Group>): nat {
    if groups == [] then 0 else Max(MostTuples(groups[..|groups| - 1]), groups[|groups| - 1].numTuples)
  }

  function TupleMemory(groups: seq<Group>, tuples: nat, bytes: nat): nat {
    if groups == [] then 0
    else TupleMemory(groups[..|groups| - 1], tuples, bytes) + Times(Times(tuples, groups[|groups| - 1].maxPages), bytes)
  }

  // ---- The tensors of each branch ----

  // One tensor for each of the first k layers.
  function LayerTensors(g: Group, k: nat, n: nat): seq<Tensor>
    requires k <= |g.layers|
  {
    if k == 0 then [] else LayerTensors(g, k - 1, n) + [Tensor(Times(g.Page(k - 1), n), [g.layers[k - 1].name], 0, 0)]
  }

  function PageBytes(g: Group, k: nat): seq<nat>
    requires k <= |g.layers|
  {
    if k == 0 then [] else PageBytes(g, k - 1) + [g.Page(k - 1)]
  }

  function SlotTensors(groups: seq<Group>, i: nat, n: nat): seq<Tensor>
    requires i <= |groups|
  {
    if i == 0 then [] else SlotTensors(groups, i - 1, n) + LayerTensors(groups[i - 1], |groups[i - 1].layers|, n)
  }

  function SlotBytes(groups: seq<Group>): seq<nat> {
    if groups == [] then []
    else SlotBytes(groups[..|groups| - 1]) + PageBytes(groups[|groups| - 1], |groups[|groups| - 1].layers|)
  }

  // One tensor over the whole slab for every offset below upTo at which a layer starts.
  function PackedTensors(groups: seq<Group>, upTo: nat, size: nat): seq<Tensor> {
    if upTo == 0 then []
    else
      PackedTensors(groups, upTo - 1, size)
      + TensorFor(size, NamesOfGroups(groups, |groups|, upTo - 1), upTo - 1, Stride(groups, |groups|))
  }

  // All of them.
  function Slab(groups: seq<Group>, size: nat): seq<Tensor> {
    PackedTensors(groups, Stride(groups, |groups|) + 1, size)
  }

  function SlabFor(groups: seq<Group>, numBlocks: nat): seq<Tensor> {
    Slab(groups, Times(Stride(groups, |groups|), numBlocks))
  }

  function TensorFor(size: nat, names: seq<string>, off: nat, stride: nat): seq<Tensor> {
    if names == [] then [] else [Tensor(size, names, off, stride)]
  }

  // Pool i is shared by the i-th layer of each group that has one.
  function Sharers(groups: seq<Group>, k: nat, i: nat): seq<string>
    requires k <= |groups|
  {
    if k == 0 then []
    else Sharers(groups, k - 1, i) + if i < |groups[k - 1].layers| then [groups[k - 1].layers[i].name] else []
  }

  function PoolTensors(groups: seq<Group>, k: nat, size: nat): seq<Tensor> {
    if k == 0 then [] else PoolTensors(groups, k - 1, size) + [Tensor(size, Sharers(groups, |groups|, k - 1), 0, 0)]
  }

  // ---- Sizes ----

  // Every tensor takes its bytes per block, times the number of blocks.
  ghost predicate Sized(tensors: seq<Tensor>, per: seq<nat>, n: nat) {
    |tensors| == |per| && forall i :: 0 <= i < |per| ==> tensors[i].size == Times(per[i], n)
  }

  lemma {:induction false} LayerTensorsSized(g: Group, k: nat, n: nat)
    requires k <= |g.layers|
    ensures Sized(LayerTensors(g, k, n), PageBytes(g, k), n)
  {
    if k > 0 {
      LayerTensorsSized(g, k - 1, n);
    }
  }

  lemma {:induction false} PageBytesSum(g: Group, k: nat)
    requires k <= |g.layers|
    ensures Sum(PageBytes(g, k)) == g.Offset(k)
  {
    if k > 0 {
      PageBytesSum(g, k - 1);
      PageBytesLength(g, k - 1);
      assert PageBytes(g, k)[..k - 1] == PageBytes(g, k - 1);
    }
  }

  lemma {:induction false} PageBytesLength(g: Group, k: nat)
    requires k <= |g.layers|
    ensures |PageBytes(g, k)| == k
  {
    if k > 0 {
      PageBytesLength(g, k - 1);
    }
  }

  lemma {:induction false} SumConcat(a: seq<nat>, b: seq<nat>)
    ensures Sum(a + b) == Sum(a) + Sum(b)
  {
    if b == [] {
      assert a + b == a;
    } else {
      SumConcat(a, b[..|b| - 1]);
      assert (a + b)[..|a + b| - 1] == a + b[..|b| - 1];
    }
  }

  lemma {:induction false} SlotTensorsSized(groups: seq<Group>, i: nat, n: nat)
    requires i <= |groups|
    ensures Sized(SlotTensors(groups, i, n), SlotBytes(groups[..i]), n)
    ensures Sum(SlotBytes(groups[..i])) == Widths(groups[..i])
  {
    if i > 0 {
      SlotTensorsSized(groups, i - 1, n);
      assert groups[..i][..i - 1] == groups[..i - 1];
      var g := groups[i - 1];
      LayerTensorsSized(g, |g.layers|, n);
      PageBytesSum(g, |g.layers|);
      SumConcat(SlotBytes(groups[..i - 1]), PageBytes(g, |g.layers|));
    }
  }

  lemma {:induction false} PackedTensorsSized(groups: seq<Group>, upTo: nat, size: nat, size': nat)
    ensures |PackedTensors(groups, upTo, size)| == |PackedTensors(groups, upTo, size')|
    ensures forall i :: 0 <= i < |PackedTensors(groups, upTo, size)| ==>
              PackedTensors(groups, upTo, size)[i].size == size
  {
    if upTo > 0 {
      PackedTensorsSized(groups, upTo - 1, size, size');
    }
  }

  lemma {:induction false} PoolTensorsSized(groups: seq<Group>, k: nat, size: nat)
    ensures |PoolTensors(groups, k, size)| == k
    ensures forall i :: 0 <= i < k ==> PoolTensors(groups, k, size)[i].size == size
  {
    if k > 0 {
      PoolTensorsSized(groups, k - 1, size);
    }
  }

  lemma SlabSized(groups: seq<Group>, n: nat)
    ensures var stride := Stride(groups, |groups|);
      Sized(SlabFor(groups, n), Repeat(|Slab(groups, 0)|, stride), n)
  {
    var stride := Stride(groups, |groups|);
    PackedTensorsSized(groups, stride + 1, Times(stride, n), 0);
  }

  lemma PlanSized(w: Worker, override: Option<nat>)
    requires w.Plan(override).Some?
    ensures Sized(w.Plan(override).value.tensors, w.PerBlock(), w.Plan(override).value.numBlocks)
  {
    if w.groups != [] {
      var n := w.Blocks(override);
      if w.lockstep {
        SlotTensorsSized(w.groups, |w.groups|, n);
        assert w.groups[..|w.groups|] == w.groups;
      } else if w.SingleUniform() {
        LayerTensorsSized(w.groups[0], |w.groups[0].layers|, n);
      } else if w.Packed() {
        SlabSized(w.groups, n);
      } else {
        PoolTensorsSized(w.groups, GroupSize(w.groups), Times(w.groups[0].pageSize, n));
      }
    }
  }

  // The memory the tensors really take; in the packed layout all of them are one slab.
  function Footprint(w: Worker, c: Config): nat {
    if w.groups != [] && w.Packed() then Times(Stride(w.groups, |w.groups|), c.numBlocks) else Sum(SizesOf(c.tensors))
  }

  function SizesOf(tensors: seq<Tensor>): seq<nat> {
    seq(|tensors|, i requires 0 <= i < |tensors| => tensors[i].size)
  }

  lemma {:induction false} SizedSum(tensors: seq<Tensor>, per: seq<nat>, n: nat)
    requires Sized(tensors, per, n)
    ensures Sum(SizesOf(tensors)) == Times(Sum(per), n)
  {
    if per != [] {
      var m := |per| - 1;
      assert SizesOf(tensors)[..m] == SizesOf(tensors[..m]);
      SizedSum(tensors[..m], per[..m], n);
      assert Times(Sum(per), n) == Times(Sum(per[..m]), n) + Times(per[m], n);
    }
  }

  lemma {:induction false} SumRepeat(n: nat, x: nat)
    ensures Sum(Repeat(n, x)) == Times(n, x)
  {
    if n > 0 {
      assert Repeat(n, x)[..n - 1] == Repeat(n - 1, x);
      SumRepeat(n - 1, x);
      assert Times(n, x) == Times(n - 1, x) + x;
    }
  }

  lemma TimesCommutes(a: nat, b: nat)
    ensures Times(a, b) == Times(b, a)
  {
  }

  lemma TimesOrder(a: nat, b: nat, n: nat)
    requires a <= b
    ensures Times(a, n) <= Times(b, n)
  {
  }

  // With sizes in proportion, a block costs no more than its bytes in the pool.
  lemma FootprintFits(w: Worker, c: Config)
    requires w.Ok() && w.groups != [] && Sized(c.tensors, w.PerBlock(), c.numBlocks)
    ensures Footprint(w, c) <= Times(w.PoolBytes(), c.numBlocks)
  {
    if !w.Packed() {
      SizedSum(c.tensors, w.PerBlock(), c.numBlocks);
      if w.lockstep {
        SlotTensorsSized(w.groups, |w.groups|, 0);
        assert w.groups[..|w.groups|] == w.groups;
      } else if w.SingleUniform() {
        PageBytesSum(w.groups[0], |w.groups[0].layers|);
        assert w.groups[0] in w.groups;
      } else {
        SumRepeat(GroupSize(w.groups), w.groups[0].pageSize);
        assert Times(GroupSize(w.groups), w.groups[0].pageSize) == w.PoolBytes();
      }
      TimesOrder(Sum(w.PerBlock()), w.PoolBytes(), c.numBlocks);
    }
  }

  // ---- Capacity ----

  lemma QuotientBound(a: nat, b: nat, q: nat)
    requires b > 0
    ensures Times(b, q) <= a <==> q <= Quotient(a, b)
  {
    var d := a / b;
    assert a == b * d + a % b;
    if q <= d {
      TimesOrder(q, d, b);
    } else {
      TimesOrder(d + 1, q, b);
    }
  }

  lemma QuotientOfQuotient(a: nat, b: nat, c: nat, q: nat)
    requires b > 0 && c > 0
    ensures q <= Quotient(Quotient(a, b), c) <==> Times(Times(b, c), q) <= a
  {
    QuotientBound(Quotient(a, b), c, q);
    QuotientBound(a, b, Times(c, q));
    assert Times(b, Times(c, q)) == Times(Times(b, c), q);
  }

  // The number of blocks is the largest that fits.
  lemma BlocksFit(w: Worker, q: nat)
    requires w.groups != [] && w.Plannable()
    ensures q <= w.Blocks(None) <==> Times(w.PoolBytes(), q) <= w.available
  {
    if w.General() {
      var b, c := w.groups[0].pageSize, GroupSize(w.groups);
      assert Times(b, c) == w.PoolBytes();
      Positive(b, c);
      QuotientOfQuotient(w.available, b, c, q);
    } else {
      QuotientBound(w.available, w.PoolBytes(), q);
    }
  }

  lemma Positive(b: nat, c: nat)
    requires Times(b, c) > 0
    ensures b > 0 && c > 0
  {
  }

  // A worker that is admitted has the blocks one request of the maximal length occupies. In
  // the packed layout of mixed groups a block is never wider than the admission check takes it.
  lemma AdmissionImpliesCapacity(w: Worker)
    requires w.Ok() && w.Plannable() && w.CountsBlocks() && w.Admitted(None)
    ensures w.Required() <= w.Blocks(None)
  {
    BlocksFit(w, w.Required());
    if w.lockstep {
      TimesCommutes(MostBlocks(w.groups), w.PoolBytes());
    } else {
      var page := w.groups[0].pageSize;
      assert w.PoolBytes() <= Times(GroupSize(w.groups), page) by {
        if w.Packed() {
          NarrowStride(w, |w.groups|);
        } else {
          TimesCommutes(GroupSize(w.groups), page);
        }
      }
      TimesOrder(w.PoolBytes(), Times(GroupSize(w.groups), page), w.Required());
    }
  }

  // Groups that share a page size are at most as wide as the largest of them.
  lemma {:induction false} NarrowStride(w: Worker, i: nat)
    requires w.Ok() && w.groups != [] && i <= |w.groups|
    requires forall k :: 0 <= k < |w.groups| ==> w.groups[k].pageSize == w.groups[0].pageSize
    ensures Stride(w.groups, i) <= Times(GroupSize(w.groups), w.groups[0].pageSize)
  {
    if i > 0 {
      NarrowStride(w, i - 1);
      var g, page := w.groups[i - 1], w.groups[0].pageSize;
      assert g in w.groups;
      LargestGroup(w.groups, i - 1);
      TimesOrder(|g.layers|, GroupSize(w.groups), page);
      if !g.uniform {
        EqualPages(g, |g.layers|);
      } else if g.layers != [] {
        TimesOrder(1, GroupSize(w.groups), page);
      }
    }
  }

  lemma {:induction false} EqualPages(g: Group, k: nat)
    requires !g.uniform && k <= |g.layers|
    ensures g.Offset(k) == Times(k, g.pageSize)
  {
    if k > 0 {
      EqualPages(g, k - 1);
      assert Times(k, g.pageSize) == Times(k - 1, g.pageSize) + g.pageSize;
    }
  }

  lemma {:induction false} LargestGroup(groups: seq<Group>, i: nat)
    requires i < |groups|
    ensures |groups[i].layers| <= GroupSize(groups)
  {
    if i < |groups| - 1 {
      LargestGroup(groups[..|groups| - 1], i);
    }
  }

  // Planned tensors never exceed the memory planned against.
  lemma PlanWithinCapacity(w: Worker, override: Option<nat>)
    requires w.Ok() && w.groups != [] && w.Plannable()
    ensures Footprint(w, w.Plan(override).value) <= w.Capacity(override)
  {
    var c := w.Plan(override).value;
    PlanSized(w, override);
    FootprintFits(w, c);
    if override.None? {
      BlocksFit(w, c.numBlocks);
    } else {
      TimesCommutes(override.value, w.PoolBytes());
    }
  }

  // ---- All workers ----

  function MinBlocks(cs: seq<Config>): nat
    requires cs != []
  {
    if |cs| == 1 then cs[0].numBlocks
    else
      var rest := MinBlocks(cs[..|cs| - 1]);
      if cs[|cs| - 1].numBlocks < rest then cs[|cs| - 1].numBlocks else rest
  }

  // Whether the sizes can be shrunk: the program divides by the old block count, exactly.
  predicate Divisible(c: Config) {
    forall i :: 0 <= i < |c.tensors| ==> Exact(c.tensors[i].size, c.numBlocks)
  }

  predicate Exact(size: nat, n: nat) {
    n > 0 && size % n == 0
  }

  function Rescaled(size: nat, n: nat, m: nat): nat {
    if n == 0 then 0 else Times(size / n, m)
  }

  function Shrunk(c: Config, m: nat): Config
    requires Divisible(c)
  {
    Config(m, seq(|c.tensors|, i requires 0 <= i < |c.tensors| =>
                    c.tensors[i].(size := Rescaled(c.tensors[i].size, c.numBlocks, m))))
  }

  lemma {:induction false} MinIsLeast(cs: seq<Config>) returns (w: nat)
    requires cs != []
    ensures w < |cs| && cs[w].numBlocks == MinBlocks(cs)
    ensures forall i :: 0 <= i < |cs| ==> MinBlocks(cs) <= cs[i].numBlocks
  {
    if |cs| == 1 {
      w := 0;
    } else {
      var front := cs[..|cs| - 1];
      w := MinIsLeast(front);
      assert forall i :: 0 <= i < |front| ==> cs[i] == front[i];
      if cs[|cs| - 1].numBlocks < MinBlocks(front) {
        w := |cs| - 1;
      }
    }
  }

  lemma ExactQuotient(p: nat, n: nat)
    requires n > 0
    ensures Times(p, n) % n == 0 && Times(p, n) / n == p
  {
    var s, q := Times(p, n), Times(p, n) / n;
    assert s == n * q + s % n;
    QuotientBound(s, n, p);
    if q > p {
      TimesOrder(p + 1, q, n);
    }
  }

  // Sizes in proportion can be shrunk exactly unless there are tensors but no block.
  lemma SizedDivisible(c: Config, per: seq<nat>, m: nat)
    requires Sized(c.tensors, per, c.numBlocks)
    ensures Divisible(c) <==> c.numBlocks > 0 || per == []
    ensures Divisible(c) ==> Sized(Shrunk(c, m).tensors, per, m)
  {
    forall i | 0 <= i < |per| && c.numBlocks > 0
      ensures Exact(c.tensors[i].size, c.numBlocks) && Rescaled(c.tensors[i].size, c.numBlocks, m) == Times(per[i], m)
    {
      ExactQuotient(per[i], c.numBlocks);
    }
    if c.numBlocks == 0 && per != [] {
      assert c.tensors[0].size == Times(per[0], 0);
    }
  }

  function Plans(workers: seq<Worker>, override: Option<nat>): seq<Config>
    requires forall i :: 0 <= i < |workers| ==> workers[i].Plannable()
  {
    seq(|workers|, i requires 0 <= i < |workers| => workers[i].Plan(override).value)
  }

  function ConfigsOf(workers: seq<Worker>, override: Option<nat>): Option<seq<Config>>
    requires workers != []
  {
    if !AllAdmitted(workers, override) then None
    else
      var plans := Plans(workers, override);
      if !AllDivisible(plans) then None else Some(AllShrunk(plans, MinBlocks(plans)))
  }

  predicate AllAdmitted(workers: seq<Worker>, override: Option<nat>) {
    forall i :: 0 <= i < |workers| ==> workers[i].Admitted(override) && workers[i].Plannable()
  }

  predicate AllDivisible(plans: seq<Config>) {
    forall i :: 0 <= i < |plans| ==> Divisible(plans[i])
  }

  function AllShrunk(plans: seq<Config>, m: nat): seq<Config>
    requires AllDivisible(plans)
  {
    seq(|plans|, i requires 0 <= i < |plans| => Shrunk(plans[i], m))
  }

  // The planner goes through exactly when every worker is admitted, can be planned at all, and
  // has memory for one block, or an override of the count; an admitted one may lack the last.
  lemma ConfigsExistIff(workers: seq<Worker>, override: Option<nat>)
    requires workers != []
    ensures ConfigsOf(workers, override).Some? <==>
              forall i :: 0 <= i < |workers| ==>
                workers[i].Admitted(override) && workers[i].Plannable() && (override.Some? || workers[i].HoldsOne())
  {
    if forall i :: 0 <= i < |workers| ==> workers[i].Admitted(override) && workers[i].Plannable() {
      var plans := Plans(workers, override);
      forall i | 0 <= i < |workers|
        ensures Divisible(plans[i]) <==> override.Some? || workers[i].HoldsOne()
      {
        PlanDivisible(workers[i], override);
      }
    }
  }

  lemma PlanDivisible(w: Worker, override: Option<nat>)
    requires w.Plannable() && w.Admitted(override)
    ensures Divisible(w.Plan(override).value) <==> override.Some? || w.HoldsOne()
  {
    PlanSized(w, override);
    SizedDivisible(w.Plan(override).value, w.PerBlock(), 0);
    if w.groups != [] {
      if override.Some? {
        assert w.Capacity(override) == Times(override.value, w.PoolBytes());
        assert override.value > 0;
      } else {
        BlocksFit(w, 1);
      }
    }
  }

  // An admitted worker on which the planner divides by zero: its one layer asks for no
  // memory, and what there is does not hold a page.
  lemma AdmittedWithoutBlock(name: string)
    ensures var w := Worker([Group([Layer(name, 4, 0)], true, 4, 0, 0, 1, 4)], false, false, 3);
      w.Ok() && w.Admitted(None) && w.Plannable() && ConfigsOf([w], None).None?
  {
    var layers := [Layer(name, 4, 0)];
    var g := Group(layers, true, 4, 0, 0, 1, 4);
    var w := Worker([g], false, false, 3);
    assert layers[..0] == [];
    assert LayerMemory(layers) == 0;
    assert g.Offset(1) == g.Offset(0) + 4;
    assert PageBytes(g, 1) == PageBytes(g, 0) + [4];
    assert [w][0] == w;
    ConfigsExistIff([w], None);
  }

  // It cannot happen to a worker of which a request needs a block, nor to a single uniform
  // group in which each layer needs a page and a block is as wide as its layers.
  lemma AdmittedHoldsOne(w: Worker)
    requires w.Ok() && w.Plannable() && w.Admitted(None)
    requires (w.CountsBlocks() && w.Required() > 0)
             || (w.SingleUniform() && !w.lockstep && w.groups[0].Width() == w.groups[0].pageSize
                 && forall j :: 0 <= j < |w.groups[0].layers| ==>
                      w.groups[0].layers[j].pageSize <= w.groups[0].layers[j].memory)
    ensures w.HoldsOne()
  {
    BlocksFit(w, 1);
    if w.CountsBlocks() && w.Required() > 0 {
      AdmissionImpliesCapacity(w);
    } else {
      var g := w.groups[0];
      LayersNeedPages(g, |g.layers|);
      assert g.layers[..|g.layers|] == g.layers;
    }
  }

  lemma {:induction false} LayersNeedPages(g: Group, k: nat)
    requires g.uniform && k <= |g.layers|
    requires forall j :: 0 <= j < |g.layers| ==> g.layers[j].pageSize <= g.layers[j].memory
    ensures g.Offset(k) <= LayerMemory(g.layers[..k])
  {
    if k > 0 {
      LayersNeedPages(g, k - 1);
      assert g.layers[..k][..k - 1] == g.layers[..k - 1];
    }
  }

  // What every worker ends up with: the common block count, tensors exactly in proportion to
  // it, within the memory planned against; the count is that of some worker's own plan.
  lemma ConfigsSound(workers: seq<Worker>, override: Option<nat>) returns (least: nat)
    requires workers != [] && ConfigsOf(workers, override).Some?
    requires forall i :: 0 <= i < |workers| ==> workers[i].Ok()
    ensures least < |workers| && workers[least].Plan(override).Some?
    ensures var cs, m := ConfigsOf(workers, override).value, workers[least].Plan(override).value.numBlocks;
      && |cs| == |workers|
      && (forall i :: 0 <= i < |cs| ==>
            && workers[i].Plan(override).Some? && m <= workers[i].Plan(override).value.numBlocks
            && cs[i].numBlocks == m && Sized(cs[i].tensors, workers[i].PerBlock(), m)
            && (workers[i].groups != [] ==> Footprint(workers[i], cs[i]) <= workers[i].Capacity(override)))
  {
    var plans, cs := Plans(workers, override), ConfigsOf(workers, override).value;
    least := MinIsLeast(plans);
    var m := MinBlocks(plans);
    forall i | 0 <= i < |cs|
      ensures Sized(cs[i].tensors, workers[i].PerBlock(), m)
      ensures workers[i].groups != [] ==> Footprint(workers[i], cs[i]) <= workers[i].Capacity(override)
    {
      PlanSized(workers[i], override);
      SizedDivisible(plans[i], workers[i].PerBlock(), m);
      assert Divisible(plans[i]);
      if workers[i].groups != [] {
        FootprintFits(workers[i], cs[i]);
        CapacityKept(workers[i], override, m);
      }
    }
  }

  lemma CapacityKept(w: Worker, override: Option<nat>, m: nat)
    requires w.groups != [] && w.Plannable() && m <= w.Plan(override).value.numBlocks
    ensures Times(w.PoolBytes(), m) <= w.Capacity(override)
  {
    if override.None? {
      BlocksFit(w, m);
    } else {
      TimesOrder(m, override.value, w.PoolBytes());
      TimesCommutes(m, w.PoolBytes());
    }
  }

  // The common count still serves every request that each worker alone could serve.
  lemma CommonCountSuffices(workers: seq<Worker>, blocks: nat)
    requires workers != [] && ConfigsOf(workers, None).Some?
    requires forall i :: 0 <= i < |workers| ==>
               workers[i].Ok() && workers[i].CountsBlocks() && blocks <= workers[i].Required()
    ensures forall i :: 0 <= i < |workers| ==> blocks <= ConfigsOf(workers, None).value[i].numBlocks
  {
    var least := ConfigsSound(workers, None);
    AdmissionImpliesCapacity(workers[least]);
  }

  // ---- The packed slab after the shrink ----

  lemma TensorAt(groups: seq<Group>, upTo: nat, size: nat, off: nat) returns (x: nat)
    requires off < upTo && NamesOfGroups(groups, |groups|, off) != []
    ensures x < |PackedTensors(groups, upTo, size)|
    ensures var t := PackedTensors(groups, upTo, size)[x];
      t.offset == off && t.sharedBy == NamesOfGroups(groups, |groups|, off)
  {
    var names := NamesOfGroups(groups, |groups|, off);
    x := |PackedTensors(groups, off, size)|;
    PackedNext(groups, off, size, names);
    PackedGrows(groups, off + 1, upTo, size);
    LastOf(PackedTensors(groups, off, size), Tensor(size, names, off, Stride(groups, |groups|)),
           PackedTensors(groups, upTo, size));
  }

  lemma {:induction false} PackedGrows(groups: seq<Group>, a: nat, b: nat, size: nat)
    requires a <= b
    ensures PackedTensors(groups, a, size) <= PackedTensors(groups, b, size)
  {
    if a < b {
      var last: nat := b - 1;
      PackedGrows(groups, a, last, size);
      GrowsOnce(groups, a, last, size);
    }
  }

  lemma GrowsOnce(groups: seq<Group>, a: nat, last: nat, size: nat)
    requires PackedTensors(groups, a, size) <= PackedTensors(groups, last, size)
    ensures PackedTensors(groups, a, size) <= PackedTensors(groups, last + 1, size)
  {
    var names := NamesOfGroups(groups, |groups|, last);
    var front, more := PackedTensors(groups, last, size), TensorFor(size, names, last, Stride(groups, |groups|));
    PackedNext(groups, last, size, names);
    PrefixMore(PackedTensors(groups, a, size), front, more, PackedTensors(groups, last + 1, size));
  }

  lemma PrefixMore(a: seq<Tensor>, b: seq<Tensor>, more: seq<Tensor>, all: seq<Tensor>)
    requires a <= b && all == b + more
    ensures a <= all
  {
  }

  lemma LastOf(front: seq<Tensor>, t: Tensor, all: seq<Tensor>)
    requires front + [t] <= all
    ensures |front| < |all| && all[|front|] == t
  {
    assert (front + [t])[|front|] == t;
  }

  lemma PackedNext(groups: seq<Group>, off: nat, size: nat, names: seq<string>)
    requires names == NamesOfGroups(groups, |groups|, off)
    ensures PackedTensors(groups, off + 1, size) == PackedTensors(groups, off, size)
              + TensorFor(size, names, off, Stride(groups, |groups|))
  {
  }

  // Each layer of a packed worker finds a tensor at its own offset, over a slab cut to the
  // common block count in which every one of its pages lies.
  lemma LayerInSlab(workers: seq<Worker>, override: Option<nat>, i: nat, g: nat, j: nat, b: nat) returns (x: nat)
    requires workers != [] && ConfigsOf(workers, override).Some? && forall w :: 0 <= w < |workers| ==> workers[w].Ok()
    requires i < |workers| && workers[i].groups != [] && workers[i].Packed()
    requires g < |workers[i].groups| && j < |workers[i].groups[g].layers|
    requires |ConfigsOf(workers, override).value| == |workers| && b < ConfigsOf(workers, override).value[i].numBlocks
    ensures var groups, c := workers[i].groups, ConfigsOf(workers, override).value[i];
      && x < |c.tensors| && groups[g].layers[j].name in c.tensors[x].sharedBy
      && c.tensors[x].offset == groups[g].Offset(j)
      && c.tensors[x].size == Times(Stride(groups, |groups|), c.numBlocks)
      && Start(groups, g, j, b) + groups[g].Page(j) <= c.tensors[x].size
  {
    var least := ConfigsSound(workers, override);
    var w := workers[i];
    var groups, plan, c := w.groups, w.Plan(override).value, ConfigsOf(workers, override).value[i];
    LayerListed(groups, |groups|, g, j);
    PageInBlock(groups, g, j);
    var stride := Stride(groups, |groups|);
    x := TensorAt(groups, stride + 1, Times(stride, w.Blocks(override)), groups[g].Offset(j));
    assert c == Shrunk(plan, c.numBlocks);
    assert c.tensors[x].offset == plan.tensors[x].offset;
    PackedTensorsSized(groups, stride + 1, Times(stride, w.Blocks(override)), 0);
    assert w.PerBlock()[x] == stride;
    PagesInSlab(groups, g, j, b, c.numBlocks);
  }
}
