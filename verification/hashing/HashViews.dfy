// A list of block hashes seen at a coarser block size.
module HashViews {
  import opened BlockKeys

  // The number of tokens in numBlocks full blocks, as a sum.
  function TokensIn(numBlocks: nat, blockSize: nat): nat {
    if numBlocks == 0 then 0 else TokensIn(numBlocks - 1, blockSize) + blockSize
  }

  lemma {:induction false} TokensInIs(numBlocks: nat, blockSize: nat)
    ensures TokensIn(numBlocks, blockSize) == numBlocks * blockSize
  {
    if numBlocks > 0 {
      TokensInIs(numBlocks - 1, blockSize);
    }
  }

  // Each fine hash chains over its whole prefix, so the last one inside a coarse block is
  // the hash of that block.
  function CoarseView(hashes: seq<Bytes>, scale: nat): seq<Bytes>
    requires scale > 0
  {
    seq(|hashes| / scale, i requires 0 <= i < |hashes| / scale => CoarseAt(hashes, scale, i))
  }

  function CoarseAt(hashes: seq<Bytes>, scale: nat, i: nat): Bytes
    requires scale > 0 && i < |hashes| / scale
  {
    InView(|hashes|, scale, i);
    hashes[(i + 1) * scale - 1]
  }

  lemma InView(n: nat, scale: nat, i: nat)
    requires scale > 0 && i < n / scale
    ensures scale <= (i + 1) * scale <= n
  {
    assert n == n / scale * scale + n % scale;
    MulOrder(i + 1, n / scale, scale);
    MulOrder(1, i + 1, scale);
  }

  predicate Fits(hashBlock: nat, target: nat) {
    hashBlock > 0 && target > 0 && target % hashBlock == 0
  }

  // The hashes at block size target, computed at hashBlock.
  function Resolve(hashes: seq<Bytes>, hashBlock: nat, target: nat): seq<Bytes>
    requires Fits(hashBlock, target)
  {
    if target == hashBlock then hashes else CoarseView(hashes, Scale(hashBlock, target))
  }

  function Scale(hashBlock: nat, target: nat): (scale: nat)
    requires Fits(hashBlock, target)
    ensures scale > 0 && scale * hashBlock == target
  {
    target / hashBlock
  }

  // The shortcut for equal sizes returns what the view would.
  lemma ResolveIsView(hashes: seq<Bytes>, hashBlock: nat, target: nat)
    requires Fits(hashBlock, target)
    ensures Resolve(hashes, hashBlock, target) == CoarseView(hashes, Scale(hashBlock, target))
  {
    if target == hashBlock {
      assert Scale(hashBlock, target) == 1;
      assert CoarseView(hashes, 1) == hashes;
    }
  }

  // With scale fine blocks to a coarse one, entry i is the hash of the last fine block inside
  // coarse block i.
  lemma ResolvedAt(hashes: seq<Bytes>, hashBlock: nat, target: nat, scale: nat, i: nat)
    requires hashBlock > 0 && target > 0 && scale * hashBlock == target && i < |hashes| / scale
    ensures Fits(hashBlock, target) && |Resolve(hashes, hashBlock, target)| == |hashes| / scale
    ensures scale <= (i + 1) * scale <= |hashes|
    ensures Resolve(hashes, hashBlock, target)[i] == hashes[(i + 1) * scale - 1]
  {
    ExactScale(hashBlock, target, scale);
    InView(|hashes|, scale, i);
    ResolveIsView(hashes, hashBlock, target);
  }

  lemma ExactScale(hashBlock: nat, target: nat, scale: nat)
    requires hashBlock > 0 && target > 0 && scale * hashBlock == target
    ensures Fits(hashBlock, target) && Scale(hashBlock, target) == scale && scale > 0
  {
    assert target == target / hashBlock * hashBlock + target % hashBlock;
    if scale < target / hashBlock {
      MulOrder(scale + 1, target / hashBlock, hashBlock);
    } else if scale > target / hashBlock {
      MulOrder(target / hashBlock + 1, scale, hashBlock);
    }
  }

  lemma QuotientAtLeast(n: nat, d: nat, q: nat)
    requires d > 0 && q * d <= n
    ensures q <= n / d
  {
    if q > n / d {
      MulOrder(n / d + 1, q, d);
    }
  }

  lemma MulOrder(a: nat, b: nat, d: nat)
    requires a <= b
    ensures a * d <= b * d
  {
  }

  // A full block lies inside the tokens there are.
  lemma BlockInside(size: nat, i: nat, n: nat)
    requires size > 0 && i < n / size
    ensures TokensIn(i, size) + size == TokensIn(i + 1, size) <= n
  {
    InView(n, size, i);
    TokensInIs(i + 1, size);
  }

  // Whether one more block fits behind i full ones.
  lemma BlockCount(n: nat, size: nat, i: nat)
    requires size > 0 && i <= n / size
    ensures TokensIn(i, size) <= n && (i == n / size <==> TokensIn(i, size) + size > n)
  {
    TokensInIs(i, size);
    TokensInIs(n / size, size);
    assert n == n / size * size + n % size;
    if i < n / size {
      BlockInside(size, i, n);
    }
  }

  lemma StillFits(size: nat, i: nat, n: nat, m: nat)
    requires size > 0 && i < n / size && n <= m
    ensures i < m / size
  {
    InView(n, size, i);
    QuotientAtLeast(m, size, i + 1);
  }
}
