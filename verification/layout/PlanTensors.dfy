// Where each layer ends up after all workers have been brought to one block count.
module PlanTensors {
  import opened Wrappers
  import opened KVLayout
  import opened KVPlan
  import opened PlanMeaning

  // Bringing a plan to the common count changes nothing of a tensor but its size.
  lemma AtCommonCount(workers: seq<Worker>, override: Option<nat>, i: nat, x: nat)
    requires workers != [] && ConfigsOf(workers, override).Some? && i < |workers|
    requires forall k :: 0 <= k < |workers| ==> workers[k].Ok()
    ensures workers[i].Plan(override).Some? && |ConfigsOf(workers, override).value| == |workers|
    ensures var plan, c := workers[i].Plan(override).value, ConfigsOf(workers, override).value[i];
      && |c.tensors| == |plan.tensors| == |workers[i].PerBlock()|
      && (x < |c.tensors| ==> c.tensors[x] == plan.tensors[x].(size := Times(workers[i].PerBlock()[x], c.numBlocks)))
  {
    var least := ConfigsSound(workers, override);
    var c := ConfigsOf(workers, override).value[i];
    assert c == Shrunk(workers[i].Plan(override).value, c.numBlocks);
  }

  lemma {:induction false} LayerTensorsAt(g: Group, k: nat, n: nat, j: nat)
    requires j < k <= |g.layers|
    ensures |LayerTensors(g, k, n)| == k == |PageBytes(g, k)|
    ensures LayerTensors(g, k, n)[j] == Tensor(Times(g.Page(j), n), [g.layers[j].name], 0, 0)
    ensures PageBytes(g, k)[j] == Pages(g)[j]
  {
    LayerTensorsSized(g, k - 1, n);
    PageBytesLength(g, k - 1);
    if j < k - 1 {
      LayerTensorsAt(g, k - 1, n, j);
    }
  }

  lemma {:induction false} SlotTensorsAt(groups: seq<Group>, i: nat, n: nat, g: nat, j: nat) returns (x: nat)
    requires g < i <= |groups| && j < |groups[g].layers|
    ensures x == Sum(Counts(groups)[..g]) + j < |SlotTensors(groups, i, n)| == |SlotBytes(groups[..i])|
    ensures SlotTensors(groups, i, n)[x] ==
            Tensor(Times(groups[g].Page(j), n), [groups[g].layers[j].name], 0, 0)
    ensures SlotBytes(groups[..i])[x] == Pages(groups[g])[j]
  {
    var last := groups[i - 1];
    assert groups[..i][..i - 1] == groups[..i - 1];
    SlotTensorsSized(groups, i - 1, n);
    LayerTensorsSized(last, |last.layers|, n);
    if g < i - 1 {
      x := SlotTensorsAt(groups, i - 1, n, g, j);
    } else {
      SlotsCounted(groups, i - 1, n);
      x := |SlotTensors(groups, i - 1, n)| + j;
      LayerTensorsAt(last, |last.layers|, n, j);
    }
  }

  lemma {:induction false} SlotsCounted(groups: seq<Group>, i: nat, n: nat)
    requires i <= |groups|
    ensures |SlotTensors(groups, i, n)| == Sum(Counts(groups)[..i])
  {
    if i > 0 {
      SlotsCounted(groups, i - 1, n);
      assert Counts(groups)[..i][..i - 1] == Counts(groups)[..i - 1];
      LayerTensorsSized(groups[i - 1], |groups[i - 1].layers|, n);
      PageBytesLength(groups[i - 1], |groups[i - 1].layers|);
    }
  }

  // In lockstep, and in a single uniform group, each layer has a tensor of its own, in order,
  // with the layer's page for each block; there are no other tensors.
  lemma OwnTensor(workers: seq<Worker>, override: Option<nat>, i: nat, g: nat, j: nat) returns (x: nat)
    requires workers != [] && ConfigsOf(workers, override).Some? && i < |workers|
    requires forall k :: 0 <= k < |workers| ==> workers[k].Ok()
    requires var groups := workers[i].groups;
      && (workers[i].lockstep || (|groups| == 1 && groups[0].uniform))
      && g < |groups| && j < |groups[g].layers|
    ensures x == Sum(Counts(workers[i].groups)[..g]) + j && |ConfigsOf(workers, override).value| == |workers|
    ensures var groups, c := workers[i].groups, ConfigsOf(workers, override).value[i];
      && x < |c.tensors| == Sum(Counts(groups))
      && c.tensors[x] == Tensor(Times(Pages(groups[g])[j], c.numBlocks), [groups[g].layers[j].name], 0, 0)
  {
    var w := workers[i];
    var groups, n := w.groups, w.Plan(override).value.numBlocks;
    assert groups[..|groups|] == groups && Counts(groups)[..|groups|] == Counts(groups);
    x := SlotTensorsAt(groups, |groups|, n, g, j);
    SlotsCounted(groups, |groups|, n);
    if !w.lockstep {
      SingleSlot(groups, n);
    }
    AtCommonCount(workers, override, i, x);
  }

  lemma SingleSlot(groups: seq<Group>, n: nat)
    requires |groups| == 1
    ensures SlotTensors(groups, 1, n) == LayerTensors(groups[0], |groups[0].layers|, n)
    ensures SlotBytes(groups) == PageBytes(groups[0], |groups[0].layers|)
  {
    assert SlotTensors(groups, 0, n) == [] && SlotBytes(groups[..0]) == [];
  }

  lemma {:induction false} SharersAre(groups: seq<Group>, k: nat, j: nat, name: string)
    requires k <= |groups|
    ensures name in Sharers(groups, k, j) <==>
            exists g :: 0 <= g < k && j < |groups[g].layers| && groups[g].layers[j].name == name
  {
    if k > 0 {
      SharersAre(groups, k - 1, j, name);
    }
  }

  lemma {:induction false} PoolTensorsAt(groups: seq<Group>, k: nat, size: nat, j: nat)
    requires j < k
    ensures |PoolTensors(groups, k, size)| == k
    ensures PoolTensors(groups, k, size)[j] == Tensor(size, Sharers(groups, |groups|, j), 0, 0)
  {
    PoolTensorsSized(groups, k - 1, size);
    if j < k - 1 {
      PoolTensorsAt(groups, k - 1, size, j);
    }
  }

  // In the general layout there are as many tensors as the largest group has layers; the j-th
  // belongs to the j-th layer of every group that has one, with one page for each block.
  lemma PoolShared(workers: seq<Worker>, override: Option<nat>, i: nat, size: nat, j: nat, name: string)
    requires workers != [] && ConfigsOf(workers, override).Some? && i < |workers|
    requires forall k :: 0 <= k < |workers| ==> workers[k].Ok()
    requires !workers[i].lockstep && (|workers[i].groups| == 1 || !workers[i].crossLayers)
    requires (exists g :: g in workers[i].groups && !g.uniform)
    requires Largest(size, Counts(workers[i].groups)) && j < size
    ensures |ConfigsOf(workers, override).value| == |workers|
    ensures var groups, c := workers[i].groups, ConfigsOf(workers, override).value[i];
      && |c.tensors| == size && c.tensors[j].size == Times(groups[0].pageSize, c.numBlocks)
      && c.tensors[j].offset == c.tensors[j].stride == 0
      && (name in c.tensors[j].sharedBy <==>
           exists g :: 0 <= g < |groups| && j < |groups[g].layers| && groups[g].layers[j].name == name)
  {
    var w := workers[i];
    SizeIsLargest(w.groups);
    LargestUnique(size, GroupSize(w.groups), Counts(w.groups));
    SomeNot(w);
    PoolTensorsAt(w.groups, size, Times(w.groups[0].pageSize, w.Blocks(override)), j);
    SharersAre(w.groups, |w.groups|, j, name);
    AtCommonCount(workers, override, i, j);
  }

  // Each tensor of a slab lists what starts at its offset, and has the slab's size and stride.
  lemma {:induction false} PackedTensorsAt(groups: seq<Group>, upTo: nat, size: nat, x: nat)
    requires x < |PackedTensors(groups, upTo, size)|
    ensures var t := PackedTensors(groups, upTo, size)[x];
      && t.offset < upTo
      && t == Tensor(size, NamesOfGroups(groups, |groups|, t.offset), t.offset, Stride(groups, |groups|))
  {
    if upTo > 0 {
      var off: nat := upTo - 1;
      var names := NamesOfGroups(groups, |groups|, off);
      PackedNext(groups, off, size, names);
      if x < |PackedTensors(groups, off, size)| {
        PackedTensorsAt(groups, off, size, x);
      }
    }
  }

  // In the packed layout a tensor belongs to the layers that start at its offset and to no
  // others; it covers all blocks of the slab, each as wide as the widest group.
  lemma {:induction false} SlabShared(workers: seq<Worker>, override: Option<nat>, i: nat, widest: nat, x: nat,
                                      name: string)
    requires workers != [] && ConfigsOf(workers, override).Some? && i < |workers|
    requires forall k :: 0 <= k < |workers| ==> workers[k].Ok()
    requires !workers[i].lockstep && |workers[i].groups| > 1
    requires workers[i].crossLayers || forall g :: g in workers[i].groups ==> g.uniform
    requires Largest(widest, WidthsOf(workers[i].groups))
    requires |ConfigsOf(workers, override).value| == |workers| && x < |ConfigsOf(workers, override).value[i].tensors|
    ensures var groups, c := workers[i].groups, ConfigsOf(workers, override).value[i];
      && c.tensors[x].size == Times(widest, c.numBlocks) && c.tensors[x].stride == widest
      && (name in c.tensors[x].sharedBy <==>
           exists g, j :: 0 <= g < |groups| && 0 <= j < |groups[g].layers|
                          && groups[g].layers[j].name == name && groups[g].Offset(j) == c.tensors[x].offset)
  {
    var w := workers[i];
    var groups, stride := w.groups, Stride(w.groups, |w.groups|);
    StrideIsLargest(groups, |groups|);
    assert WidthsOf(groups)[..|groups|] == WidthsOf(groups);
    LargestUnique(widest, stride, WidthsOf(groups));
    forall k | 0 <= k < |groups|
      ensures groups[k] in groups
    {
    }
    AtCommonCount(workers, override, i, x);
    SlabTensorOf(w, override, x);
    ListedWhere(groups, w.Plan(override).value.tensors[x].offset, name);
  }

  lemma {:induction false} SlabTensorOf(w: Worker, override: Option<nat>, x: nat)
    requires w.groups != [] && w.Packed() && w.Plan(override).Some?
    requires x < |w.Plan(override).value.tensors| == |w.PerBlock()|
    ensures var groups, t := w.groups, w.Plan(override).value.tensors[x];
      && t.sharedBy == NamesOfGroups(groups, |groups|, t.offset)
      && t.stride == w.PerBlock()[x] == Stride(groups, |groups|)
  {
    var stride := Stride(w.groups, |w.groups|);
    PackedTensorsAt(w.groups, stride + 1, Times(stride, w.Blocks(override)), x);
  }

  lemma ListedWhere(groups: seq<Group>, off: nat, name: string)
    ensures name in NamesOfGroups(groups, |groups|, off) <==>
            exists g, j :: 0 <= g < |groups| && 0 <= j < |groups[g].layers|
                           && groups[g].layers[j].name == name && groups[g].Offset(j) == off
  {
    if name in NamesOfGroups(groups, |groups|, off) {
      var g, j := LayerFound(groups, |groups|, off, name);
    }
    if exists g, j :: 0 <= g < |groups| && 0 <= j < |groups[g].layers|
                      && groups[g].layers[j].name == name && groups[g].Offset(j) == off {
      var g, j :| 0 <= g < |groups| && 0 <= j < |groups[g].layers|
                  && groups[g].layers[j].name == name && groups[g].Offset(j) == off;
      LayerListed(groups, |groups|, g, j);
    }
  }

  // No worker's tensors take more than it may plan with; those of a slab all lie in the one slab.
  lemma MemoryKept(workers: seq<Worker>, override: Option<nat>, i: nat, bytes: nat, capacity: nat)
    requires workers != [] && ConfigsOf(workers, override).Some? && i < |workers|
    requires (forall k :: 0 <= k < |workers| ==> workers[k].Ok()) && Allowed(workers[i], override, bytes, capacity)
    ensures |ConfigsOf(workers, override).value| == |workers|
    ensures var w, tensors := workers[i], ConfigsOf(workers, override).value[i].tensors;
      if !w.lockstep && |w.groups| > 1 && (w.crossLayers || forall g :: g in w.groups ==> g.uniform) then
        forall x :: 0 <= x < |tensors| ==> tensors[x].size <= capacity
      else Sum(SizesOf(tensors)) <= capacity
  {
    AllowedIs(workers[i], override, bytes, capacity);
    var least := ConfigsSound(workers, override);
    var w := workers[i];
    forall k | 0 <= k < |w.groups|
      ensures w.groups[k] in w.groups
    {
    }
  }
}
