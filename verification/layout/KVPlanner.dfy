// The planner as the program runs it, proved to compute the functions of KVPlan.dfy.
module KVPlanner {
  import opened Wrappers
  import opened KVLayout
  import opened KVPlan
  import opened Seqs

  ghost predicate Increasing(s: seq<nat>) {
    forall i, j :: 0 <= i < j < |s| ==> s[i] < s[j]
  }

  method SortedKeys(keys: set<nat>) returns (s: seq<nat>)
    ensures Increasing(s) && Elems(s) == keys
  {
    s := [];
    var rest := keys;
    while rest != {}
      invariant rest <= keys && Increasing(s)
      invariant forall k :: k in keys <==> k in s || k in rest
      invariant forall k, l :: k in s && l in rest ==> k < l
      decreases rest
    {
      var least := Least(rest);
      assert forall i :: 0 <= i < |s| ==> s[i] in s;
      s := s + [least];
      rest := rest - {least};
    }
  }

  method Least(keys: set<nat>) returns (least: nat)
    requires keys != {}
    ensures least in keys && forall k :: k in keys ==> least <= k
  {
    least :| least in keys;
    var rest := keys - {least};
    while rest != {}
      invariant rest <= keys && least in keys && forall k :: k in keys ==> k in rest || least <= k
      decreases rest
    {
      var k :| k in rest;
      if k < least {
        least := k;
      }
      rest := rest - {k};
    }
  }

  // The tensors of a layout, as PackedTensors lists those of its groups.
  function LayoutTensors(layout: map<nat, seq<string>>, stride: nat, upTo: nat, size: nat): seq<Tensor> {
    if upTo == 0 then []
    else LayoutTensors(layout, stride, upTo - 1, size) + EntryFor(layout, stride, upTo - 1, size)
  }

  function EntryFor(layout: map<nat, seq<string>>, stride: nat, off: nat, size: nat): seq<Tensor> {
    if off in layout then [Tensor(size, layout[off], off, stride)] else []
  }

  lemma {:induction false} LayoutIsPacked(groups: seq<Group>, layout: map<nat, seq<string>>, upTo: nat, size: nat)
    requires Listed(layout, groups)
    ensures LayoutTensors(layout, Stride(groups, |groups|), upTo, size) == PackedTensors(groups, upTo, size)
  {
    if upTo > 0 {
      var off: nat := upTo - 1;
      LayoutIsPacked(groups, layout, off, size);
      var names := ListedNames(groups, layout, off);
      NextIsPacked(groups, layout, off, size, names);
    }
  }

  lemma ListedNames(groups: seq<Group>, layout: map<nat, seq<string>>, off: nat) returns (names: seq<string>)
    requires Listed(layout, groups)
    ensures names == NamesOfGroups(groups, |groups|, off) && At(layout, off) == names
    ensures (off in layout <==> names != [])
  {
    names := NamesOfGroups(groups, |groups|, off);
    ListedAt(layout, groups, off);
  }

  // One more offset, at which the layout lists the names of the groups.
  lemma NextIsPacked(groups: seq<Group>, layout: map<nat, seq<string>>, off: nat, size: nat, names: seq<string>)
    requires names == NamesOfGroups(groups, |groups|, off) && At(layout, off) == names
    requires (off in layout <==> names != [])
    requires LayoutTensors(layout, Stride(groups, |groups|), off, size) == PackedTensors(groups, off, size)
    ensures LayoutTensors(layout, Stride(groups, |groups|), off + 1, size) == PackedTensors(groups, off + 1, size)
  {
    LayoutNext(layout, Stride(groups, |groups|), off, size, names);
    PackedNext(groups, off, size, names);
  }

  lemma LayoutNext(layout: map<nat, seq<string>>, stride: nat, off: nat, size: nat, names: seq<string>)
    requires At(layout, off) == names && (off in layout <==> names != [])
    ensures LayoutTensors(layout, stride, off + 1, size) == LayoutTensors(layout, stride, off, size)
              + TensorFor(size, names, off, stride)
  {
  }

  lemma OffsetsInStride(groups: seq<Group>, layout: map<nat, seq<string>>, off: nat)
    requires Listed(layout, groups) && off in layout
    ensures off <= Stride(groups, |groups|)
  {
    ListedAt(layout, groups, off);
    var x := layout[off][0];
    var g, j := LayerFound(groups, |groups|, off, x);
    PageInBlock(groups, g, j);
  }

  // Between two offsets at which layers start there is nothing to list.
  lemma {:induction false} Gap(layout: map<nat, seq<string>>, stride: nat, a: nat, b: nat, size: nat)
    requires a <= b && forall off :: a <= off < b ==> off !in layout
    ensures LayoutTensors(layout, stride, b, size) == LayoutTensors(layout, stride, a, size)
  {
    if a < b {
      Gap(layout, stride, a, b - 1, size);
      assert LayoutTensors(layout, stride, b - 1, size) + [] == LayoutTensors(layout, stride, b - 1, size);
    }
  }

  // One tensor per offset, in ascending order, each over the whole slab.
  method PackedPlan(groups: seq<Group>, n: nat) returns (tensors: seq<Tensor>)
    ensures tensors == SlabFor(groups, n)
  {
    var stride, layout := PackedLayout(groups);
    var total := Times(stride, n);
    LayoutIsSlab(groups, layout, stride, total);
    tensors := SlabTensors(layout, stride, total);
  }

  lemma LayoutIsSlab(groups: seq<Group>, layout: map<nat, seq<string>>, stride: nat, total: nat)
    requires Listed(layout, groups) && stride == Stride(groups, |groups|)
    ensures LayoutTensors(layout, stride, stride + 1, total) == Slab(groups, total)
    ensures forall off :: off in layout ==> off <= stride
  {
    LayoutIsPacked(groups, layout, stride + 1, total);
    forall off | off in layout
      ensures off <= stride
    {
      OffsetsInStride(groups, layout, off);
    }
  }

  method SlabTensors(layout: map<nat, seq<string>>, stride: nat, total: nat) returns (tensors: seq<Tensor>)
    requires forall off :: off in layout ==> off <= stride
    ensures tensors == LayoutTensors(layout, stride, stride + 1, total)
  {
    var offsets := SortedKeys(layout.Keys);
    tensors := [];
    ghost var seen := 0;
    for i := 0 to |offsets|
      invariant seen == (if i == 0 then 0 else offsets[i - 1] + 1) <= stride + 1
      invariant tensors == LayoutTensors(layout, stride, seen, total)
    {
      assert offsets[i] in Elems(offsets);
      NothingBetween(layout, offsets, i, seen, offsets[i]);
      Gap(layout, stride, seen, offsets[i], total);
      tensors := tensors + [Tensor(total, layout[offsets[i]], offsets[i], stride)];
      seen := offsets[i] + 1;
    }
    NothingBetween(layout, offsets, |offsets|, seen, stride + 1);
    Gap(layout, stride, seen, stride + 1, total);
  }

  lemma NothingBetween(layout: map<nat, seq<string>>, offsets: seq<nat>, i: nat, seen: nat, end: nat)
    requires Increasing(offsets) && i <= |offsets| && Elems(offsets) == layout.Keys
    requires seen == (if i == 0 then 0 else offsets[i - 1] + 1) && (i < |offsets| ==> end == offsets[i])
    ensures forall o :: seen <= o < end ==> o !in layout
    ensures i < |offsets| ==> seen <= end
  {
    forall k | 0 <= k < |offsets|
      ensures offsets[k] < seen || end <= offsets[k]
    {
      if k < i - 1 {
        assert offsets[k] < offsets[i - 1];
      } else if k > i {
        assert offsets[i] < offsets[k];
      }
    }
    assert forall o :: o in layout ==> o in Elems(offsets);
  }

  // One pool per position, shared by the layers the groups have there.
  method GeneralPlan(groups: seq<Group>, groupSize: nat, size: nat) returns (tensors: seq<Tensor>)
    ensures tensors == PoolTensors(groups, groupSize, size)
  {
    tensors := [];
    for i := 0 to groupSize
      invariant tensors == PoolTensors(groups, i, size)
    {
      var sharedBy: seq<string> := [];
      for k := 0 to |groups|
        invariant sharedBy == Sharers(groups, k, i)
      {
        if i < |groups[k].layers| {
          sharedBy := sharedBy + [groups[k].layers[i].name];
        }
      }
      tensors := tensors + [Tensor(size, sharedBy, 0, 0)];
    }
  }

  // A tensor of its own for every layer of every group.
  method LockstepPlan(groups: seq<Group>, n: nat) returns (tensors: seq<Tensor>)
    ensures tensors == SlotTensors(groups, |groups|, n)
  {
    tensors := [];
    for i := 0 to |groups|
      invariant tensors == SlotTensors(groups, i, n)
    {
      var slots := LayerPlan(groups[i], n);
      tensors := tensors + slots;
    }
  }

  method LayerPlan(g: Group, n: nat) returns (tensors: seq<Tensor>)
    ensures tensors == LayerTensors(g, |g.layers|, n)
  {
    tensors := [];
    for k := 0 to |g.layers|
      invariant tensors == LayerTensors(g, k, n)
    {
      tensors := tensors + [Tensor(Times(g.Page(k), n), [g.layers[k].name], 0, 0)];
    }
  }

  // ---- Bytes and blocks ----

  // The number of layers of the largest group.
  method LargestSize(groups: seq<Group>) returns (size: nat)
    ensures size == GroupSize(groups)
  {
    size := 0;
    for i := 0 to |groups|
      invariant size == GroupSize(groups[..i])
    {
      assert groups[..i + 1][..i] == groups[..i];
      if |groups[i].layers| > size {
        size := |groups[i].layers|;
      }
    }
    assert groups[..|groups|] == groups;
  }

  // The bytes of all slots: one for each layer of each group.
  method SlotSum(groups: seq<Group>) returns (bytes: nat)
    ensures bytes == Widths(groups)
  {
    bytes := 0;
    for i := 0 to |groups|
      invariant bytes == Widths(groups[..i])
    {
      assert groups[..i + 1][..i] == groups[..i];
      var g := groups[i];
      for j := 0 to |g.layers|
        invariant bytes == Widths(groups[..i]) + g.Offset(j)
      {
        bytes := bytes + g.Page(j);
      }
    }
    assert groups[..|groups|] == groups;
  }

  method BlockBytes(w: Worker) returns (bytes: nat)
    requires w.groups != []
    ensures bytes == w.PoolBytes()
  {
    if w.lockstep {
      bytes := SlotSum(w.groups);
    } else if w.SingleUniform() {
      bytes := w.groups[0].pageSize;
    } else if w.Packed() {
      var layout;
      bytes, layout := PackedLayout(w.groups);
    } else {
      var size := LargestSize(w.groups);
      bytes := w.groups[0].pageSize * size;
    }
  }

  // Division rounded up, of a positive number.
  method RoundedUp(a: nat, b: nat) returns (q: nat)
    ensures q == CeilDiv(a, b)
    ensures b > 0 ==> Times(b, q) >= a && (q > 0 ==> Times(b, q - 1) < a)
  {
    if b == 0 {
      return 0;
    }
    q := (a + b - 1) / b;
    QuotientBound(a + b - 1, b, q);
    QuotientBound(a + b - 1, b, q + 1);
    assert Times(b, q + 1) == Times(b, q) + b;
    assert q > 0 ==> Times(b, q) == Times(b, q - 1) + b;
  }

  // The most blocks a group of a lockstep worker needs.
  method MostNeeded(groups: seq<Group>) returns (blocks: nat)
    ensures blocks == MostBlocks(groups)
  {
    blocks := 0;
    for i := 0 to |groups|
      invariant blocks == MostBlocks(groups[..i])
    {
      assert groups[..i + 1][..i] == groups[..i];
      var q := RoundedUp(groups[i].memory, groups[i].pageSize);
      if q > blocks {
        blocks := q;
      }
    }
    assert groups[..|groups|] == groups;
  }

  method AllNeeded(groups: seq<Group>, page: nat) returns (blocks: nat)
    ensures blocks == AllBlocks(groups, page)
  {
    blocks := 0;
    for i := 0 to |groups|
      invariant blocks == AllBlocks(groups[..i], page)
    {
      assert groups[..i + 1][..i] == groups[..i];
      var q := RoundedUp(groups[i].memory, page);
      blocks := blocks + q;
    }
    assert groups[..|groups|] == groups;
  }

  method LayersNeeded(layers: seq<Layer>) returns (bytes: nat)
    ensures bytes == LayerMemory(layers)
  {
    bytes := 0;
    for i := 0 to |layers|
      invariant bytes == LayerMemory(layers[..i])
    {
      assert layers[..i + 1][..i] == layers[..i];
      bytes := bytes + layers[i].memory;
    }
    assert layers[..|layers|] == layers;
  }

  // Every group reserves the largest number of layer tuples.
  method TuplesNeeded(groups: seq<Group>) returns (bytes: nat)
    requires groups != []
    ensures bytes == TupleMemory(groups, MostTuples(groups), groups[0].tupleBytes)
  {
    var tuples := 0;
    for i := 0 to |groups|
      invariant tuples == MostTuples(groups[..i])
    {
      assert groups[..i + 1][..i] == groups[..i];
      if groups[i].numTuples > tuples {
        tuples := groups[i].numTuples;
      }
    }
    assert groups[..|groups|] == groups;
    bytes := 0;
    for i := 0 to |groups|
      invariant bytes == TupleMemory(groups[..i], tuples, groups[0].tupleBytes)
    {
      assert groups[..i + 1][..i] == groups[..i];
      bytes := bytes + Times(Times(tuples, groups[i].maxPages), groups[0].tupleBytes);
    }
  }

  method NeededBytes(w: Worker) returns (bytes: nat)
    ensures bytes == w.Needed()
  {
    if |w.groups| == 0 {
      return 0;
    }
    if w.lockstep {
      var blocks := MostNeeded(w.groups);
      var per := BlockBytes(w);
      return Times(blocks, per);
    } else if w.SingleUniform() {
      bytes := LayersNeeded(w.groups[0].layers);
    } else if w.AllUniform() {
      bytes := TuplesNeeded(w.groups);
    } else {
      var size := LargestSize(w.groups);
      var blocks := AllNeeded(w.groups, w.groups[0].pageSize);
      return Times(Times(size, w.groups[0].pageSize), blocks);
    }
  }

  // The check before anything is planned: memory left at all, and enough of it.
  method Admit(w: Worker, override: Option<nat>) returns (ok: bool)
    ensures ok == w.Admitted(override) && (w.groups == [] ==> ok)
  {
    if |w.groups| == 0 {
      return true;
    }
    var available := w.available;
    if override.Some? {
      var per := BlockBytes(w);
      available := Times(override.value, per);
    }
    if available == 0 || !w.SamePages() {
      return false;
    }
    var needed := NeededBytes(w);
    return needed <= available;
  }

  // What fits into the memory, or the override.
  method CountBlocks(w: Worker, override: Option<nat>, bytes: nat) returns (n: nat)
    requires w.groups != [] && w.Plannable() && bytes == w.PoolBytes()
    ensures n == w.Blocks(override)
    ensures override.None? ==> Times(bytes, n) <= w.available < Times(bytes, n + 1)
  {
    if override.Some? {
      return override.value;
    }
    if w.General() {
      var size := LargestSize(w.groups);
      n := Quotient(Quotient(w.available, w.groups[0].pageSize), size);
    } else {
      n := Quotient(w.available, bytes);
    }
    BlocksFit(w, n);
    BlocksFit(w, n + 1);
  }

  // None where the program stops with an assertion or a division by zero.
  method PlanWorker(w: Worker, override: Option<nat>) returns (c: Option<Config>)
    ensures c == w.Plan(override) && (w.groups == [] ==> c == Some(Config(1, [])))
  {
    if |w.groups| == 0 {
      return Some(Config(1, []));
    }
    var bytes := BlockBytes(w);
    if bytes == 0 || (w.General() && !w.SamePages()) || (w.lockstep && !w.PagesNotEmpty()) {
      return None;
    }
    var n := CountBlocks(w, override, bytes);
    var tensors;
    if w.lockstep {
      tensors := LockstepPlan(w.groups, n);
    } else if w.SingleUniform() {
      tensors := LayerPlan(w.groups[0], n);
    } else if w.Packed() {
      tensors := PackedPlan(w.groups, n);
    } else {
      var size := LargestSize(w.groups);
      tensors := GeneralPlan(w.groups, size, Times(w.groups[0].pageSize, n));
    }
    return Some(Config(n, tensors));
  }

  method SmallestCount(configs: array<Config>) returns (m: nat)
    requires configs.Length > 0
    ensures m == MinBlocks(configs[..])
  {
    m := configs[0].numBlocks;
    assert configs[..1] == [configs[0]];
    for i := 1 to configs.Length
      invariant m == MinBlocks(configs[..i])
    {
      assert configs[..i + 1][..i] == configs[..i];
      if configs[i].numBlocks < m {
        m := configs[i].numBlocks;
      }
    }
    assert configs[..configs.Length] == configs[..];
  }

  // Sets every worker to the smallest block count, in place; false where the program stops.
  method ShrinkAll(configs: array<Config>) returns (ok: bool)
    requires configs.Length > 0
    modifies configs
    ensures ok <==> forall i :: 0 <= i < configs.Length ==> Divisible(old(configs[..])[i])
    ensures ok ==> forall i :: 0 <= i < configs.Length ==>
              configs[i] == Shrunk(old(configs[..])[i], MinBlocks(old(configs[..])))
  {
    ghost var was := configs[..];
    var m := SmallestCount(configs);
    for i := 0 to configs.Length
      invariant forall k :: 0 <= k < i ==> Divisible(was[k]) && configs[k] == Shrunk(was[k], m)
      invariant forall k :: i <= k < configs.Length ==> configs[k] == was[k]
    {
      var c := ShrinkOne(configs[i], m);
      if c.None? {
        return false;
      }
      configs[i] := c.value;
    }
    return true;
  }

  method ShrinkOne(c: Config, m: nat) returns (r: Option<Config>)
    ensures r == if Divisible(c) then Some(Shrunk(c, m)) else None
  {
    var tensors: seq<Tensor> := [];
    for i := 0 to |c.tensors|
      invariant |tensors| == i
      invariant forall k :: 0 <= k < i ==> Exact(c.tensors[k].size, c.numBlocks)
      invariant forall k :: 0 <= k < i ==>
                tensors[k] == c.tensors[k].(size := Rescaled(c.tensors[k].size, c.numBlocks, m))
    {
      var t := c.tensors[i];
      if !Exact(t.size, c.numBlocks) {
        return None;
      }
      tensors := tensors + [t.(size := Rescaled(t.size, c.numBlocks, m))];
    }
    assert tensors == Shrunk(c, m).tensors;
    return Some(Config(m, tensors));
  }

  lemma ConfigsFound(workers: seq<Worker>, override: Option<nat>, plans: seq<Config>, cs: seq<Config>)
    requires workers != [] && |cs| == |workers|
    requires AllAdmitted(workers, override) && plans == Plans(workers, override) && AllDivisible(plans)
    requires forall i :: 0 <= i < |plans| ==> cs[i] == Shrunk(plans[i], MinBlocks(plans))
    ensures ConfigsOf(workers, override) == Some(cs)
  {
    ShrunkAre(plans, MinBlocks(plans), cs);
  }

  lemma ShrunkAre(plans: seq<Config>, m: nat, cs: seq<Config>)
    requires AllDivisible(plans) && |cs| == |plans| && forall i :: 0 <= i < |plans| ==> cs[i] == Shrunk(plans[i], m)
    ensures AllShrunk(plans, m) == cs
  {
  }

  // Admission check and plan for each worker, then the common block count.
  method GetKVCacheConfigs(workers: seq<Worker>, override: Option<nat>) returns (r: Option<seq<Config>>)
    requires workers != []
    ensures r == ConfigsOf(workers, override)
  {
    for i := 0 to |workers|
      invariant forall k :: 0 <= k < i ==> workers[k].Admitted(override)
    {
      var ok := Admit(workers[i], override);
      if !ok {
        return None;
      }
    }
    var plans: seq<Config> := [];
    for i := 0 to |workers|
      invariant |plans| == i
      invariant forall k :: 0 <= k < i ==> workers[k].Plannable() && workers[k].Plan(override) == Some(plans[k])
    {
      var c := PlanWorker(workers[i], override);
      if c.None? {
        return None;
      }
      plans := plans + [c.value];
    }
    assert plans == Plans(workers, override);
    var configs := new Config[|plans|](i requires 0 <= i < |plans| => plans[i]);
    assert configs[..] == plans;
    var ok := ShrinkAll(configs);
    if !ok {
      return None;
    }
    ConfigsFound(workers, override, plans, configs[..]);
    return Some(configs[..]);
  }
}
