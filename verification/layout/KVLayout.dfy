// The packed layout: each cache group laid out densely in one shared slab of blocks.
module KVLayout {

  datatype Layer = Layer(name: string, pageSize: nat, memory: nat)

  // A cache group on one worker. A uniform group gives each layer its own page size, the
  // others share one; the remaining fields are what the admission check asks of the spec.
  datatype Group = Group(layers: seq<Layer>, uniform: bool, pageSize: nat, memory: nat,
                         maxPages: nat, numTuples: nat, tupleBytes: nat)
  {
    function Page(j: nat): nat
      requires j < |layers|
    {
      if uniform then layers[j].pageSize else pageSize
    }

    // Where layer j starts inside a block: behind the pages of the layers before it.
    function Offset(j: nat): nat
      requires j <= |layers|
    {
      if j == 0 then 0 else Offset(j - 1) + Page(j - 1)
    }

    function Width(): nat {
      Offset(|layers|)
    }

    // The layers among the first j that start at off, in order.
    function NamesAt(j: nat, off: nat): seq<string>
      requires j <= |layers|
    {
      if j == 0 then []
      else NamesAt(j - 1, off) + if Offset(j - 1) == off then [layers[j - 1].name] else []
    }
  }

  // The same over the first i groups.
  function NamesOfGroups(groups: seq<Group>, i: nat, off: nat): seq<string>
    requires i <= |groups|
  {
    if i == 0 then [] else NamesOfGroups(groups, i - 1, off) + groups[i - 1].NamesAt(|groups[i - 1].layers|, off)
  }

  function Max(a: nat, b: nat): nat {
    if a >= b then a else b
  }

  // The size of a block: the widest group.
  function Stride(groups: seq<Group>, i: nat): nat
    requires i <= |groups|
  {
    if i == 0 then 0 else Max(Stride(groups, i - 1), groups[i - 1].Width())
  }

  lemma {:induction false} OffsetsGrow(g: Group, j: nat, k: nat)
    requires j < k <= |g.layers|
    ensures g.Offset(j) + g.Page(j) <= g.Offset(k)
  {
    if j + 1 < k {
      OffsetsGrow(g, j, k - 1);
    }
  }

  lemma {:induction false} StrideCovers(groups: seq<Group>, i: nat, g: nat)
    requires g < i <= |groups|
    ensures groups[g].Width() <= Stride(groups, i)
  {
    if g < i - 1 {
      StrideCovers(groups, i - 1, g);
    }
  }

  ghost predicate Disjoint(a: int, m: nat, b: int, n: nat) {
    a + m <= b || b + n <= a
  }

  // The first byte of layer j of group g in block b.
  function Start(groups: seq<Group>, g: nat, j: nat, b: nat): nat
    requires g < |groups| && j < |groups[g].layers|
  {
    b * Stride(groups, |groups|) + groups[g].Offset(j)
  }

  lemma PageInBlock(groups: seq<Group>, g: nat, j: nat)
    requires g < |groups| && j < |groups[g].layers|
    ensures groups[g].Offset(j) + groups[g].Page(j) <= Stride(groups, |groups|)
  {
    OffsetsGrow(groups[g], j, |groups[g].layers|);
    StrideCovers(groups, |groups|, g);
  }

  // Two layers of one group never share a byte of a block.
  lemma GroupPagesDisjoint(groups: seq<Group>, g: nat, j: nat, k: nat, b: nat)
    requires g < |groups| && j < |groups[g].layers| && k < |groups[g].layers| && j != k
    ensures Disjoint(Start(groups, g, j, b), groups[g].Page(j), Start(groups, g, k, b), groups[g].Page(k))
  {
    if j < k {
      OffsetsGrow(groups[g], j, k);
    } else {
      OffsetsGrow(groups[g], k, j);
    }
  }

  lemma BlocksApart(stride: nat, b: nat, c: nat)
    requires b < c
    ensures b * stride + stride <= c * stride
  {
    assert (b + 1) * stride <= c * stride;
  }

  // Pages in different blocks never share a byte, even across groups.
  lemma BlockPagesDisjoint(groups: seq<Group>, g: nat, j: nat, b: nat, h: nat, k: nat, c: nat)
    requires g < |groups| && j < |groups[g].layers| && h < |groups| && k < |groups[h].layers| && b != c
    ensures Disjoint(Start(groups, g, j, b), groups[g].Page(j), Start(groups, h, k, c), groups[h].Page(k))
  {
    PageInBlock(groups, g, j);
    PageInBlock(groups, h, k);
    var stride := Stride(groups, |groups|);
    if b < c {
      BlocksApart(stride, b, c);
    } else {
      BlocksApart(stride, c, b);
    }
  }

  // Every page of a block lies inside the slab, whatever number of blocks the slab is cut to.
  lemma PagesInSlab(groups: seq<Group>, g: nat, j: nat, b: nat, numBlocks: nat)
    requires g < |groups| && j < |groups[g].layers| && b < numBlocks
    ensures Start(groups, g, j, b) + groups[g].Page(j) <= Stride(groups, |groups|) * numBlocks
  {
    PageInBlock(groups, g, j);
    BlocksApart(Stride(groups, |groups|), b, numBlocks);
  }

  // ---- Computing the layout ----

  // The names placed so far: those of the groups before i and of the first j layers of group i.
  ghost predicate Placed(layout: map<nat, seq<string>>, groups: seq<Group>, i: nat, j: nat)
    requires i < |groups| && j <= |groups[i].layers|
  {
    forall off: nat :: At(layout, off) == NamesOfGroups(groups, i, off) + groups[i].NamesAt(j, off)
  }

  ghost predicate PlacedAll(layout: map<nat, seq<string>>, groups: seq<Group>, i: nat)
    requires i <= |groups|
  {
    forall off: nat :: At(layout, off) == NamesOfGroups(groups, i, off)
  }

  function At(layout: map<nat, seq<string>>, off: nat): seq<string> {
    if off in layout then layout[off] else []
  }

  ghost predicate NoneEmpty(layout: map<nat, seq<string>>) {
    forall off :: off in layout ==> layout[off] != []
  }

  ghost predicate LookAt(groups: seq<Group>) {
    true
  }

  // The finished layout, as a sealed fact that ListedAt opens at one offset.
  ghost predicate Listed(layout: map<nat, seq<string>>, groups: seq<Group>) {
    forall gs {:trigger LookAt(gs)} :: LookAt(gs) && gs == groups ==> PlacedAll(layout, gs, |gs|) && NoneEmpty(layout)
  }

  // An offset is in the layout exactly when layers start there, and lists all of them.
  lemma ListedAt(layout: map<nat, seq<string>>, groups: seq<Group>, off: nat)
    requires Listed(layout, groups)
    ensures off in layout <==> NamesOfGroups(groups, |groups|, off) != []
    ensures off in layout ==> layout[off] == NamesOfGroups(groups, |groups|, off)
  {
    assert LookAt(groups);
    assert At(layout, off) == NamesOfGroups(groups, |groups|, off);
  }

  // AssertionError when no group has any bytes.
  method PackedLayout(groups: seq<Group>) returns (stride: nat, layout: map<nat, seq<string>>)
    ensures stride == Stride(groups, |groups|) && Listed(layout, groups)
  {
    stride, layout := 0, map[];
    for i := 0 to |groups|
      invariant stride == Stride(groups, i) && PlacedAll(layout, groups, i) && NoneEmpty(layout)
    {
      var width;
      width, layout := PlaceGroup(groups, i, layout);
      stride := Max(stride, width);
    }
  }

  method PlaceGroup(groups: seq<Group>, i: nat, before: map<nat, seq<string>>)
    returns (width: nat, layout: map<nat, seq<string>>)
    requires i < |groups| && PlacedAll(before, groups, i) && NoneEmpty(before)
    ensures width == groups[i].Width() && PlacedAll(layout, groups, i + 1) && NoneEmpty(layout)
  {
    var g := groups[i];
    width, layout := 0, before;
    forall off: nat
      ensures NamesOfGroups(groups, i, off) + g.NamesAt(0, off) == NamesOfGroups(groups, i, off)
    {
    }
    for j := 0 to |g.layers|
      invariant width == g.Offset(j) && Placed(layout, groups, i, j) && NoneEmpty(layout)
    {
      PlaceNext(groups, i, j, layout);
      layout := layout[width := At(layout, width) + [g.layers[j].name]];
      width := width + g.Page(j);
    }
  }

  // One more layer of the group is placed.
  lemma PlaceNext(groups: seq<Group>, i: nat, j: nat, was: map<nat, seq<string>>)
    requires i < |groups| && j < |groups[i].layers| && Placed(was, groups, i, j) && NoneEmpty(was)
    ensures var g := groups[i];
      var layout := was[g.Offset(j) := At(was, g.Offset(j)) + [g.layers[j].name]];
      Placed(layout, groups, i, j + 1) && NoneEmpty(layout)
  {
    var g := groups[i];
    var layout := was[g.Offset(j) := At(was, g.Offset(j)) + [g.layers[j].name]];
    forall off: nat
      ensures At(layout, off) == NamesOfGroups(groups, i, off) + g.NamesAt(j + 1, off)
    {
      assert At(was, off) == NamesOfGroups(groups, i, off) + g.NamesAt(j, off);
      var front, mid := NamesOfGroups(groups, i, off), g.NamesAt(j, off);
      var last := if g.Offset(j) == off then [g.layers[j].name] else [];
      assert At(layout, off) == At(was, off) + last;
      assert (front + mid) + last == front + (mid + last);
    }
  }

  // Every layer is listed at its own offset, and nothing else is.
  lemma {:induction false} NameListed(g: Group, n: nat, j: nat)
    requires j < n <= |g.layers|
    ensures g.layers[j].name in g.NamesAt(n, g.Offset(j))
  {
    if j < n - 1 {
      NameListed(g, n - 1, j);
    }
  }

  lemma {:induction false} LayerListed(groups: seq<Group>, i: nat, g: nat, j: nat)
    requires g < i <= |groups| && j < |groups[g].layers|
    ensures groups[g].layers[j].name in NamesOfGroups(groups, i, groups[g].Offset(j))
  {
    if g < i - 1 {
      LayerListed(groups, i - 1, g, j);
    } else {
      NameListed(groups[g], |groups[g].layers|, j);
    }
  }

  lemma {:induction false} NameFound(g: Group, n: nat, off: nat, x: string) returns (j: nat)
    requires n <= |g.layers| && x in g.NamesAt(n, off)
    ensures j < n && g.layers[j].name == x && g.Offset(j) == off
  {
    if g.Offset(n - 1) == off && g.layers[n - 1].name == x {
      j := n - 1;
    } else {
      j := NameFound(g, n - 1, off, x);
    }
  }

  lemma {:induction false} LayerFound(groups: seq<Group>, i: nat, off: nat, x: string) returns (g: nat, j: nat)
    requires i <= |groups| && x in NamesOfGroups(groups, i, off)
    ensures g < i && j < |groups[g].layers| && groups[g].layers[j].name == x && groups[g].Offset(j) == off
  {
    if x in groups[i - 1].NamesAt(|groups[i - 1].layers|, off) {
      g := i - 1;
      j := NameFound(groups[g], |groups[g].layers|, off, x);
    } else {
      g, j := LayerFound(groups, i - 1, off, x);
    }
  }
}
