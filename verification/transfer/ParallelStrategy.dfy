// Which worker writes which piece of the cache to which server.
module ParallelStrategy {

  datatype Layout = Layout(mlaOnly: bool, worldSize: nat, tpSize: nat, ppSize: nat, numServers: nat) {
    // What the connector accepts: the world is tensor times pipeline ranks and splits evenly
    // over the servers; several servers exclude pipeline parallelism.
    ghost predicate Accepted() {
      && tpSize > 0 && ppSize > 0 && numServers > 0
      && worldSize == tpSize * ppSize && worldSize % numServers == 0
      && (numServers > 1 ==> ppSize == 1)
    }

    // The number of pieces a token chunk's cache is split into on a server.
    function KvWorldSize(): nat {
      if mlaOnly then Quotient(worldSize, tpSize) else Quotient(worldSize, numServers)
    }

    // The piece a worker is responsible for.
    function KvWorkerId(w: nat): nat {
      if mlaOnly then Quotient(w, tpSize) else Remainder(w, Quotient(worldSize, numServers))
    }

    // A replicated cache is written by the first rank per server only.
    predicate IsKvWriter(w: nat) {
      !mlaOnly || Remainder(w, Quotient(tpSize, numServers)) == 0
    }

    // Ranks are assigned to servers in contiguous blocks.
    function ServerOf(w: nat): nat {
      Quotient(w, Quotient(worldSize, numServers))
    }

    predicate Writes(w: nat, server: nat, piece: nat) {
      w < worldSize && IsKvWriter(w) && ServerOf(w) == server && KvWorkerId(w) == piece
    }
  }

  function Quotient(a: nat, b: nat): nat {
    if b == 0 then 0 else a / b
  }

  function Remainder(a: nat, b: nat): nat {
    if b == 0 then 0 else a % b
  }

  lemma DivMod(w: nat, d: nat, q: nat, r: nat)
    requires d > 0 && r < d
    ensures w == q * d + r <==> Quotient(w, d) == q && Remainder(w, d) == r
  {
    assert w == w / d * d + w % d;
    NextMultiple(q, w / d, d);
    NextMultiple(w / d, q, d);
  }

  lemma NextMultiple(a: nat, b: nat, d: nat)
    ensures a < b ==> a * d + d <= b * d
  {
    if a < b {
      assert (a + 1) * d <= b * d;
    }
  }

  lemma Exact(a: nat, b: nat, c: nat)
    requires b > 0 && a == b * c
    ensures Quotient(a, b) == c
  {
    DivMod(a, b, c, 0);
  }

  lemma Below(q: nat, r: nat, d: nat, n: nat)
    requires q < n && r < d
    ensures q * d + r < n * d
  {
    assert (q + 1) * d <= n * d;
  }

  // The ranks of one server.
  lemma RanksPerServer(c: Layout) returns (per: nat)
    requires c.Accepted()
    ensures per > 0 && per == Quotient(c.worldSize, c.numServers) && c.worldSize == c.numServers * per
  {
    per := c.worldSize / c.numServers;
    assert c.worldSize == per * c.numServers + c.worldSize % c.numServers;
    assert c.tpSize * c.ppSize > 0;
    assert per == 0 ==> per * c.numServers == 0;
  }

  lemma SplitCache(c: Layout, server: nat, piece: nat) returns (w: nat)
    requires c.Accepted() && !c.mlaOnly && server < c.numServers && piece < c.KvWorldSize()
    ensures c.Writes(w, server, piece) && forall v :: c.Writes(v, server, piece) ==> v == w
  {
    var per := RanksPerServer(c);
    w := server * per + piece;
    Below(server, piece, per, c.numServers);
    forall v: nat
      ensures v == w <==> Quotient(v, per) == server && Remainder(v, per) == piece
    {
      DivMod(v, per, server, piece);
    }
  }

  // One server holds one piece per pipeline stage.
  lemma ReplicatedOneServer(c: Layout, server: nat, piece: nat) returns (w: nat)
    requires c.Accepted() && c.mlaOnly && c.numServers == 1 && server == 0 && piece < c.KvWorldSize()
    ensures c.Writes(w, server, piece) && forall v :: c.Writes(v, server, piece) ==> v == w
  {
    Exact(c.worldSize, c.tpSize, c.ppSize);
    Exact(c.tpSize, 1, c.tpSize);
    w := piece * c.tpSize;
    Below(piece, 0, c.tpSize, c.ppSize);
    forall v: nat
      ensures v == w <==> Quotient(v, c.tpSize) == piece && Remainder(v, c.tpSize) == 0
      ensures v < c.worldSize ==> c.ServerOf(v) == 0
    {
      DivMod(v, c.tpSize, piece, 0);
      Exact(c.worldSize, 1, c.worldSize);
      if v < c.worldSize {
        DivMod(v, c.worldSize, 0, v);
      }
    }
  }

  // Several servers hold one piece each.
  lemma ReplicatedManyServers(c: Layout, server: nat, piece: nat) returns (w: nat)
    requires c.Accepted() && c.mlaOnly && c.numServers > 1 && server < c.numServers && piece < c.KvWorldSize()
    ensures c.Writes(w, server, piece) && forall v :: c.Writes(v, server, piece) ==> v == w
  {
    var per := RanksPerServer(c);
    assert c.worldSize == c.tpSize;
    Exact(c.worldSize, c.tpSize, 1);
    w := server * per;
    Below(server, 0, per, c.numServers);
    forall v: nat
      ensures v == w <==> Quotient(v, per) == server && Remainder(v, per) == 0
      ensures v < c.worldSize ==> c.KvWorkerId(v) == 0
    {
      DivMod(v, per, server, 0);
      if v < c.worldSize {
        DivMod(v, c.tpSize, 0, v);
      }
    }
  }

  // Every piece on every server has exactly one writer.
  lemma SingleWriter(c: Layout, server: nat, piece: nat) returns (w: nat)
    requires c.tpSize > 0 && c.ppSize > 0 && c.numServers > 0 && c.worldSize == c.tpSize * c.ppSize
    requires c.worldSize % c.numServers == 0 && (c.numServers > 1 ==> c.ppSize == 1)
    requires server < c.numServers && piece < c.KvWorldSize()
    ensures c.Writes(w, server, piece) && forall v :: c.Writes(v, server, piece) ==> v == w
  {
    if !c.mlaOnly {
      w := SplitCache(c, server, piece);
    } else if c.numServers == 1 {
      w := ReplicatedOneServer(c, server, piece);
    } else {
      w := ReplicatedManyServers(c, server, piece);
    }
  }

  // Servers have contiguous ranks, as many each. A split cache has a piece for each rank of a
  // server; of a replicated one, each pipeline stage has a piece, and its first rank on the
  // server writes it.
  lemma WhoWritesWhat(c: Layout, w: nat, per: nat)
    requires c.Accepted() && w < c.worldSize == c.numServers * per
    ensures c.ServerOf(w) * per <= w < c.ServerOf(w) * per + per
    ensures !c.mlaOnly ==> c.KvWorldSize() == per && c.IsKvWriter(w) && c.KvWorkerId(w) == w - c.ServerOf(w) * per
    ensures c.mlaOnly ==>
              && c.KvWorldSize() == c.ppSize
              && c.KvWorkerId(w) * c.tpSize <= w < c.KvWorkerId(w) * c.tpSize + c.tpSize
    ensures c.mlaOnly && c.numServers == 1 ==> (c.IsKvWriter(w) <==> w == c.KvWorkerId(w) * c.tpSize)
    ensures c.mlaOnly && c.numServers > 1 ==> (c.IsKvWriter(w) <==> w == c.ServerOf(w) * per)
  {
    var n := RanksPerServer(c);
    Exact(c.worldSize, c.numServers, per);
    DivMod(w, per, Quotient(w, per), Remainder(w, per));
    if c.mlaOnly {
      Exact(c.worldSize, c.tpSize, c.ppSize);
      Remainders(w, c.tpSize);
      if c.numServers == 1 {
        Exact(c.tpSize, 1, c.tpSize);
      }
    }
    Remainders(w, per);
  }

  lemma Remainders(w: nat, d: nat)
    requires d > 0
    ensures Quotient(w, d) * d <= w < Quotient(w, d) * d + d
    ensures Remainder(w, d) == w - Quotient(w, d) * d
  {
    assert w == w / d * d + w % d;
  }

  // And every writer writes a piece in range, to a server that there is.
  lemma WritersInRange(c: Layout, w: nat)
    requires c.tpSize > 0 && c.ppSize > 0 && c.numServers > 0 && c.worldSize == c.tpSize * c.ppSize
    requires c.worldSize % c.numServers == 0 && (c.numServers > 1 ==> c.ppSize == 1)
    requires w < c.worldSize
    ensures c.ServerOf(w) < c.numServers && c.KvWorkerId(w) < c.KvWorldSize()
  {
    var per := RanksPerServer(c);
    InRange(w, per, c.numServers);
    if c.mlaOnly {
      Exact(c.worldSize, c.tpSize, c.ppSize);
      InRange(w, c.tpSize, c.ppSize);
    }
  }

  lemma InRange(w: nat, d: nat, n: nat)
    requires d > 0 && w < d * n
    ensures Quotient(w, d) < n && Remainder(w, d) < d
  {
    assert w == w / d * d + w % d;
    if w / d >= n {
      assert n * d <= w / d * d;
    }
  }
}
