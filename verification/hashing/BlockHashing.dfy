// Chained block hashes of a request: each stands for the whole prefix that ends with its block.
module BlockHashing {
  import opened Wrappers
  import opened BlockKeys
  import opened HashViews

  type Token = int
  type ExtraKeys = Option<seq<string>>

  // The hash function, the hash standing for "no parent", and the block size.
  datatype Scheme = Scheme(hash: (Bytes, seq<Token>, ExtraKeys) -> Bytes, none: Bytes, size: nat)

  // The parts of a request beside its tokens that enter its hashes.
  datatype Tags = Tags(lora: Option<string>, salt: Option<string>)

  function LoraKeys(tags: Tags): seq<string> {
    if tags.lora.Some? then [tags.lora.value] else []
  }

  // An empty salt counts as none.
  function SaltKeys(tags: Tags): seq<string> {
    if tags.salt.Some? && tags.salt.value != "" then [tags.salt.value] else []
  }

  // The LoRA name goes into every block, the salt into the first one only.
  function Extra(tags: Tags, start: nat): ExtraKeys {
    var keys := LoraKeys(tags) + if start == 0 then SaltKeys(tags) else [];
    if keys == [] then None else Some(keys)
  }

  // A missing parent and an empty one are treated alike.
  function HashBlock(c: Scheme, parent: Option<Bytes>, tokens: seq<Token>, extra: ExtraKeys): Bytes {
    c.hash(if parent.None? || parent.value == [] then c.none else parent.value, tokens, extra)
  }

  // The hash of block i, from scratch.
  function Digest(c: Scheme, tags: Tags, tokens: seq<Token>, i: nat): Bytes
    requires c.size > 0 && i < |tokens| / c.size
  {
    BlockInside(c.size, i, |tokens|);
    HashBlock(c, if i == 0 then None else Some(Digest(c, tags, tokens, i - 1)),
              tokens[TokensIn(i, c.size)..TokensIn(i + 1, c.size)], Extra(tags, TokensIn(i, c.size)))
  }

  // One hash for every full block.
  function FromScratch(c: Scheme, tags: Tags, tokens: seq<Token>): seq<Bytes>
    requires c.size > 0
  {
    seq(|tokens| / c.size, i requires 0 <= i < |tokens| / c.size => Digest(c, tags, tokens, i))
  }

  // A hash looks at nothing behind its block.
  lemma {:induction false} DigestOfPrefix(c: Scheme, tags: Tags, tokens: seq<Token>, more: seq<Token>, i: nat)
    requires c.size > 0 && i < |tokens| / c.size
    ensures i < |tokens + more| / c.size
    ensures Digest(c, tags, tokens + more, i) == Digest(c, tags, tokens, i)
  {
    BlockInside(c.size, i, |tokens|);
    StillFits(c.size, i, |tokens|, |tokens + more|);
    if i > 0 {
      DigestOfPrefix(c, tags, tokens, more, i - 1);
    }
    var lo, hi := TokensIn(i, c.size), TokensIn(i + 1, c.size);
    assert (tokens + more)[lo..hi] == tokens[lo..hi];
  }

  // ---- What equal hashes mean ----

  ghost predicate Injective(c: Scheme) {
    && (forall p, t, e, p', t', e' :: c.hash(p, t, e) == c.hash(p', t', e') ==> p == p' && t == t' && e == e')
    && (forall p, t, e :: c.hash(p, t, e) != [])
  }

  // The tags two requests must share for their hashes of a block to agree.
  predicate SameTags(a: Tags, b: Tags, first: bool) {
    LoraKeys(a) + SaltKeys(a) == LoraKeys(b) + SaltKeys(b) && (!first ==> a.lora == b.lora)
  }

  lemma SplitTokens(s: seq<Token>, t: seq<Token>, lo: nat, hi: nat)
    requires lo <= hi <= |s| && hi <= |t|
    ensures s[..hi] == t[..hi] <==> s[..lo] == t[..lo] && s[lo..hi] == t[lo..hi]
  {
    assert s[..hi] == s[..lo] + s[lo..hi];
    assert t[..hi] == t[..lo] + t[lo..hi];
    if s[..hi] == t[..hi] {
      assert s[..lo] == s[..hi][..lo] && t[..lo] == t[..hi][..lo];
      assert s[lo..hi] == s[..hi][lo..] && t[lo..hi] == t[..hi][lo..];
    }
  }

  // Equal hashes are equal parents, equal blocks and equal extra keys.
  lemma BlockHashesEqual(c: Scheme, p: Option<Bytes>, q: Option<Bytes>, s: seq<Token>, t: seq<Token>, d: ExtraKeys,
                         e: ExtraKeys)
    requires Injective(c) && p != Some([]) && q != Some([]) && (p.None? <==> q.None?)
    ensures HashBlock(c, p, s, d) == HashBlock(c, q, t, e) <==> p == q && s == t && d == e
  {
  }

  lemma ExtraEqual(a: Tags, b: Tags, start: nat)
    ensures Extra(a, start) == Extra(b, start) <==>
              if start == 0 then LoraKeys(a) + SaltKeys(a) == LoraKeys(b) + SaltKeys(b) else a.lora == b.lora
  {
    assert LoraKeys(a) + [] == LoraKeys(a) && LoraKeys(b) + [] == LoraKeys(b);
    assert a.lora.Some? ==> LoraKeys(a)[0] == a.lora.value;
    assert b.lora.Some? ==> LoraKeys(b)[0] == b.lora.value;
  }

  // Two requests agree on the hash of block i exactly when they agree on all tokens up to its
  // end and on the tags that enter it.
  lemma {:induction false} DigestsEqual(c: Scheme, a: Tags, b: Tags, s: seq<Token>, t: seq<Token>, i: nat)
    requires c.size > 0 && Injective(c) && i < |s| / c.size && i < |t| / c.size
    ensures var n := TokensIn(i + 1, c.size);
      && n <= |s| && n <= |t|
      && (Digest(c, a, s, i) == Digest(c, b, t, i) <==> s[..n] == t[..n] && SameTags(a, b, i == 0))
  {
    BlockInside(c.size, i, |s|);
    BlockInside(c.size, i, |t|);
    var lo, hi := TokensIn(i, c.size), TokensIn(i + 1, c.size);
    SplitTokens(s, t, lo, hi);
    ExtraEqual(a, b, lo);
    var p := if i == 0 then None else Some(Digest(c, a, s, i - 1));
    var q := if i == 0 then None else Some(Digest(c, b, t, i - 1));
    BlockHashesEqual(c, p, q, s[lo..hi], t[lo..hi], Extra(a, lo), Extra(b, lo));
    if i > 0 {
      DigestsEqual(c, a, b, s, t, i - 1);
    }
  }

  // The same for entry i of a coarser view: it stands for the tokens of its first i + 1 blocks.
  lemma ViewsEqual(c: Scheme, a: Tags, b: Tags, s: seq<Token>, t: seq<Token>, target: nat, i: nat)
    requires Fits(c.size, target) && Injective(c) && i < |s| / target && i < |t| / target
    ensures var u, v, n := Resolve(FromScratch(c, a, s), c.size, target), Resolve(FromScratch(c, b, t), c.size, target),
              TokensIn(i + 1, target);
      && i < |u| && i < |v| && n <= |s| && n <= |t|
      && (u[i] == v[i] <==> s[..n] == t[..n] && SameTags(a, b, n == c.size))
  {
    var j := ViewEntry(c, a, s, target, i);
    var j' := ViewEntry(c, b, t, target, i);
    DigestsEqual(c, a, b, s, t, j);
  }

  // Where entry i of the view comes from.
  lemma ViewEntry(c: Scheme, tags: Tags, s: seq<Token>, target: nat, i: nat) returns (j: nat)
    requires Fits(c.size, target) && i < |s| / target
    ensures j + 1 == (i + 1) * Scale(c.size, target) && TokensIn(j + 1, c.size) == TokensIn(i + 1, target) <= |s|
    ensures j < |s| / c.size && (j == 0 <==> TokensIn(i + 1, target) == c.size)
    ensures i < |Resolve(FromScratch(c, tags, s), c.size, target)|
    ensures Resolve(FromScratch(c, tags, s), c.size, target)[i] == Digest(c, tags, s, j)
  {
    var hashes, scale := FromScratch(c, tags, s), Scale(c.size, target);
    ResolveIsView(hashes, c.size, target);
    BlockInside(target, i, |s|);
    InView(|s|, target, i);
    j := (i + 1) * scale - 1;
    SumOfSums(i + 1, scale, c.size, target);
    TokensInIs(j + 1, c.size);
    QuotientAtLeast(|s|, c.size, j + 1);
    QuotientAtLeast(|hashes|, scale, i + 1);
    if j > 0 {
      TokensInIs(j, c.size);
      MulOrder(1, j, c.size);
    }
  }

  lemma SumOfSums(n: nat, scale: nat, size: nat, target: nat)
    requires scale * size == target
    ensures TokensIn(n * scale, size) == TokensIn(n, target)
  {
    TokensInIs(n * scale, size);
    TokensInIs(n, target);
    assert n * scale * size == n * (scale * size);
  }

  // With the same LoRA and salt only the tokens matter.
  lemma EqualTagsViews(c: Scheme, tags: Tags, s: seq<Token>, t: seq<Token>, target: nat, i: nat)
    requires Fits(c.size, target) && Injective(c) && i < |s| / target && i < |t| / target
    ensures var u, v, n := Resolve(FromScratch(c, tags, s), c.size, target),
              Resolve(FromScratch(c, tags, t), c.size, target), TokensIn(i + 1, target);
      && i < |u| && i < |v| && n <= |s| && n <= |t|
      && (u[i] == v[i] <==> s[..n] == t[..n])
  {
    ViewsEqual(c, tags, tags, s, t, target, i);
  }

  // Of one adapter, entries of the view agree exactly when tokens and salt do.
  lemma SameAdapterViews(c: Scheme, a: Tags, b: Tags, s: seq<Token>, t: seq<Token>, target: nat, i: nat)
    requires Fits(c.size, target) && Injective(c) && i < |s| / target && i < |t| / target && a.lora == b.lora
    ensures var u, v := Resolve(FromScratch(c, a, s), c.size, target), Resolve(FromScratch(c, b, t), c.size, target);
      && i < |u| && i < |v| && (i + 1) * target <= |s| && (i + 1) * target <= |t|
      && (u[i] == v[i] <==>
          && s[..(i + 1) * target] == t[..(i + 1) * target]
          && (a.salt == b.salt || (a.salt in {None, Some("")} && b.salt in {None, Some("")})))
  {
    TokensInIs(i + 1, target);
    ViewsEqual(c, a, b, s, t, target, i);
    KeysMean(a, b);
  }

  // Requests of one adapter share a hash exactly when tokens and salt agree; an empty salt is none.
  lemma SameAdapter(c: Scheme, a: Tags, b: Tags, s: seq<Token>, t: seq<Token>, i: nat)
    requires c.size > 0 && Injective(c) && i < |s| / c.size && i < |t| / c.size && a.lora == b.lora
    ensures var n := (i + 1) * c.size;
      && n <= |s| && n <= |t|
      && (Digest(c, a, s, i) == Digest(c, b, t, i) <==>
          && s[..n] == t[..n]
          && (a.salt == b.salt || (a.salt in {None, Some("")} && b.salt in {None, Some("")})))
  {
    TokensInIs(i + 1, c.size);
    DigestsEqual(c, a, b, s, t, i);
    KeysMean(a, b);
  }

  // From the second block on all of adapter, salt and tokens are told apart.
  lemma TagsToldApart(c: Scheme, a: Tags, b: Tags, s: seq<Token>, t: seq<Token>, i: nat)
    requires c.size > 0 && Injective(c) && 0 < i < |s| / c.size && i < |t| / c.size
    ensures var n := (i + 1) * c.size;
      && n <= |s| && n <= |t|
      && (Digest(c, a, s, i) == Digest(c, b, t, i) <==>
          && s[..n] == t[..n] && a.lora == b.lora
          && (a.salt == b.salt || (a.salt in {None, Some("")} && b.salt in {None, Some("")})))
  {
    TokensInIs(i + 1, c.size);
    DigestsEqual(c, a, b, s, t, i);
    KeysMean(a, b);
  }

  // On the first block they are too, but for an adapter's name and a salt of the same text.
  lemma FirstBlockToldApart(c: Scheme, a: Tags, b: Tags, s: seq<Token>, t: seq<Token>)
    requires c.size > 0 && Injective(c) && c.size <= |s| && c.size <= |t|
    ensures |s| / c.size > 0 && |t| / c.size > 0
    ensures Digest(c, a, s, 0) == Digest(c, b, t, 0) <==>
              && s[..c.size] == t[..c.size]
              && (|| (a.lora == b.lora
                      && (a.salt == b.salt || (a.salt in {None, Some("")} && b.salt in {None, Some("")})))
                  || (a.lora == b.salt && a.salt in {None, Some("")} && b.lora.None? && a.lora !in {None, Some("")})
                  || (b.lora == a.salt && b.salt in {None, Some("")} && a.lora.None? && b.lora !in {None, Some("")}))
  {
    QuotientAtLeast(|s|, c.size, 1);
    QuotientAtLeast(|t|, c.size, 1);
    TokensInIs(1, c.size);
    DigestsEqual(c, a, b, s, t, 0);
    KeysMean(a, b);
  }

  // What equal lists of extra keys say about the tags behind them.
  lemma KeysMean(a: Tags, b: Tags)
    ensures SaltKeys(a) == SaltKeys(b) <==>
            a.salt == b.salt || (a.salt in {None, Some("")} && b.salt in {None, Some("")})
    ensures LoraKeys(a) == LoraKeys(b) <==> a.lora == b.lora
    ensures SameTags(a, b, false) <==> a.lora == b.lora && SaltKeys(a) == SaltKeys(b)
    ensures SameTags(a, b, true) <==>
              || (a.lora == b.lora && SaltKeys(a) == SaltKeys(b))
              || (a.lora == b.salt && a.salt in {None, Some("")} && b.lora.None? && a.lora !in {None, Some("")})
              || (b.lora == a.salt && b.salt in {None, Some("")} && a.lora.None? && b.lora !in {None, Some("")})
  {
    var x, y := LoraKeys(a) + SaltKeys(a), LoraKeys(b) + SaltKeys(b);
    assert |x| == |LoraKeys(a)| + |SaltKeys(a)| && |y| == |LoraKeys(b)| + |SaltKeys(b)|;
    assert a.lora.Some? ==> LoraKeys(a)[0] == a.lora.value == x[0];
    assert b.lora.Some? ==> LoraKeys(b)[0] == b.lora.value == y[0];
    assert SaltKeys(a) != [] ==> SaltKeys(a)[0] == a.salt.value == x[|x| - 1];
    assert SaltKeys(b) != [] ==> SaltKeys(b)[0] == b.salt.value == y[|y| - 1];
    if a.lora == b.lora && x == y {
      assert x[|LoraKeys(a)|..] == SaltKeys(a) && y[|LoraKeys(b)|..] == SaltKeys(b);
    }
  }

  lemma FirstBlockConfusion(c: Scheme, name: string, tokens: seq<Token>)
    requires c.size > 0 && name != "" && |tokens| / c.size > 0
    ensures Digest(c, Tags(Some(name), None), tokens, 0) == Digest(c, Tags(None, Some(name)), tokens, 0)
  {
    assert [name] + [] == [] + [name];
  }

  // ---- The request ----

  class Request {
    const scheme: Scheme
    const tags: Tags
    // Whether a hasher was given.
    const hashed: bool
    var outputTokenIds: seq<Token>
    var allTokenIds: seq<Token>
    var blockHashes: seq<Bytes>

    ghost predicate Valid()
      reads this
    {
      scheme.size > 0 && blockHashes == if hashed then FromScratch(scheme, tags, allTokenIds) else []
    }

    constructor (scheme: Scheme, tags: Tags, hashed: bool, prompt: seq<Token>)
      requires scheme.size > 0
      ensures Valid() && allTokenIds == prompt && outputTokenIds == []
      ensures this.scheme == scheme && this.tags == tags && this.hashed == hashed
    {
      this.scheme, this.tags, this.hashed := scheme, tags, hashed;
      outputTokenIds, allTokenIds, blockHashes := [], prompt, [];
      new;
      Settled(scheme, tags, [], prompt);
      UpdateBlockHashes([]);
    }

    // However the tokens arrive, the hashes are those of the whole list from scratch.
    method AppendOutputTokenIds(tokens: seq<Token>)
      requires Valid()
      modifies this
      ensures Valid()
      ensures allTokenIds == old(allTokenIds) + tokens && outputTokenIds == old(outputTokenIds) + tokens
      ensures old(blockHashes) <= blockHashes
    {
      ghost var was := allTokenIds;
      outputTokenIds := outputTokenIds + tokens;
      allTokenIds := allTokenIds + tokens;
      Settled(scheme, tags, was, tokens);
      UpdateBlockHashes(was);
    }

    method UpdateBlockHashes(ghost was: seq<Token>)
      requires scheme.size > 0 && was <= allTokenIds && |was| / scheme.size <= |allTokenIds| / scheme.size
      requires blockHashes == if hashed then FromScratch(scheme, tags, allTokenIds)[..|was| / scheme.size] else []
      modifies this`blockHashes
      ensures Valid() && old(blockHashes) <= blockHashes
    {
      if hashed {
        var more := Hasher(|was| / scheme.size);
        blockHashes := blockHashes + more;
      }
    }

    // The hashes still missing; done is the number of hashes there are.
    method Hasher(ghost done: nat) returns (newHashes: seq<Bytes>)
      requires scheme.size > 0 && done <= |allTokenIds| / scheme.size
      requires blockHashes == FromScratch(scheme, tags, allTokenIds)[..done]
      ensures blockHashes + newHashes == FromScratch(scheme, tags, allTokenIds)
    {
      ghost var all := FromScratch(scheme, tags, allTokenIds);
      TokensInIs(|blockHashes|, scheme.size);
      var start, numTokens := |blockHashes| * scheme.size, |allTokenIds|;
      assert start == TokensIn(done, scheme.size);
      BlockCount(numTokens, scheme.size, done);
      if start + scheme.size > numTokens {
        assert all[..done] + [] == all;
        return [];
      }
      var prev := if blockHashes != [] then Some(blockHashes[|blockHashes| - 1]) else None;
      newHashes := [];
      ghost var i := done;
      while start + scheme.size <= numTokens
        invariant done <= i <= |all| && start == TokensIn(i, scheme.size)
        invariant blockHashes + newHashes == all[..i]
        invariant prev == if i == 0 then None else Some(all[i - 1])
        invariant i == |all| <==> start + scheme.size > numTokens
        decreases |all| - i
      {
        BlockInside(scheme.size, i, numTokens);
        var hash := HashBlock(scheme, prev, allTokenIds[start..start + scheme.size], Extra(tags, start));
        assert hash == all[i];
        assert all[..i + 1] == all[..i] + [all[i]];
        newHashes := newHashes + [hash];
        start := start + scheme.size;
        prev := Some(hash);
        i := i + 1;
        BlockCount(numTokens, scheme.size, i);
      }
      assert all[..|all|] == all;
    }
  }

  // Appending tokens leaves the hashes there are as they would be from scratch.
  lemma Settled(c: Scheme, tags: Tags, was: seq<Token>, more: seq<Token>)
    requires c.size > 0
    ensures |was| / c.size <= |was + more| / c.size
    ensures FromScratch(c, tags, was + more)[..|was| / c.size] == FromScratch(c, tags, was)
    ensures FromScratch(c, tags, []) == []
  {
    var n := |was| / c.size;
    if n > 0 {
      StillFits(c.size, n - 1, |was|, |was + more|);
    }
    forall i | 0 <= i < n
      ensures FromScratch(c, tags, was + more)[i] == FromScratch(c, tags, was)[i]
    {
      DigestOfPrefix(c, tags, was, more, i);
    }
  }
}
