// The sweep of the second-level cache directory: idle files go, then the oldest ones until
// the directory is small enough again.
module L2Sweep {
  import opened Wrappers
  import opened Seqs

  type Path = string

  datatype File = File(path: Path, mtime: int, size: nat)

  datatype ScanResult = ScanResult(entries: nat, bytes: nat, expiredEntries: nat, expiredBytes: nat,
                                   evictedEntries: nat, evictedBytes: nat, errors: nat)

  function Bytes(files: seq<File>): nat {
    if files == [] then 0 else Bytes(files[..|files| - 1]) + files[|files| - 1].size
  }

  lemma {:induction false} BytesConcat(a: seq<File>, b: seq<File>)
    ensures Bytes(a + b) == Bytes(a) + Bytes(b)
  {
    if b == [] {
      assert a + b == a;
    } else {
      BytesConcat(a, b[..|b| - 1]);
      assert (a + b)[..|a + b| - 1] == a + b[..|b| - 1];
    }
  }

  predicate Expired(f: File, ttl: int, now: int) {
    now - f.mtime >= ttl
  }

  function ExpiredSet(files: seq<File>, ttl: int, now: int): set<File> {
    set f | f in files && Expired(f, ttl, now)
  }

  // ---- Sorting by modification time, files of the same time in their order ----

  ghost predicate ByMtime(files: seq<File>) {
    forall i, j :: 0 <= i < j < |files| ==> files[i].mtime <= files[j].mtime
  }

  // The files of one time, in order.
  function OfTime(files: seq<File>, t: int): seq<File> {
    if files == [] then []
    else OfTime(files[..|files| - 1], t) + if files[|files| - 1].mtime == t then [files[|files| - 1]] else []
  }

  // A stable sort: ordered, and the same files of every time in the same order.
  ghost predicate StableSorted(files: seq<File>, order: seq<File>) {
    ByMtime(order) && forall t :: OfTime(order, t) == OfTime(files, t)
  }

  lemma {:induction false} OfTimeConcat(a: seq<File>, b: seq<File>, t: int)
    ensures OfTime(a + b, t) == OfTime(a, t) + OfTime(b, t)
  {
    if b == [] {
      assert a + b == a;
    } else {
      OfTimeConcat(a, b[..|b| - 1], t);
      assert (a + b)[..|a + b| - 1] == a + b[..|b| - 1];
    }
  }

  lemma {:induction false} OfTimeNone(a: seq<File>, t: int)
    requires forall f :: f in a ==> f.mtime != t
    ensures OfTime(a, t) == []
  {
    if a != [] {
      OfTimeNone(a[..|a| - 1], t);
      assert a[|a| - 1] in a;
    }
  }

  // Puts one more file behind those that are not younger.
  method InsertSorted(order: seq<File>, f: File, ghost files: seq<File>) returns (more: seq<File>)
    requires StableSorted(files, order) && multiset(order) == multiset(files)
    ensures StableSorted(files + [f], more) && multiset(more) == multiset(files + [f])
  {
    var i := |order|;
    while i > 0 && order[i - 1].mtime > f.mtime
      invariant 0 <= i <= |order| && forall j :: i <= j < |order| ==> order[j].mtime > f.mtime
    {
      i := i - 1;
    }
    more := order[..i] + [f] + order[i..];
    Inserted(order, i, f, files);
  }

  lemma Inserted(order: seq<File>, i: nat, f: File, files: seq<File>)
    requires StableSorted(files, order) && multiset(order) == multiset(files)
    requires i <= |order| && (forall j :: i <= j < |order| ==> order[j].mtime > f.mtime)
    requires (i > 0 ==> order[i - 1].mtime <= f.mtime)
    ensures var more := order[..i] + [f] + order[i..];
      StableSorted(files + [f], more) && multiset(more) == multiset(files + [f])
  {
    var more := order[..i] + [f] + order[i..];
    InsertedOrder(order, i, f);
    forall t
      ensures OfTime(more, t) == OfTime(files + [f], t)
    {
      InsertedOfTime(order, i, f, t);
      OfTimeConcat(files, [f], t);
      assert OfTime(order, t) == OfTime(files, t);
    }
  }

  lemma InsertedOrder(order: seq<File>, i: nat, f: File)
    requires ByMtime(order) && i <= |order|
    requires (forall j :: i <= j < |order| ==> order[j].mtime > f.mtime) && (i > 0 ==> order[i - 1].mtime <= f.mtime)
    ensures ByMtime(order[..i] + [f] + order[i..])
    ensures multiset(order[..i] + [f] + order[i..]) == multiset(order) + multiset{f}
  {
    var more := order[..i] + [f] + order[i..];
    forall p, q | 0 <= p < q < |more|
      ensures more[p].mtime <= more[q].mtime
    {
      assert more[p] == if p < i then order[p] else if p == i then f else order[p - 1];
      assert more[q] == if q < i then order[q] else if q == i then f else order[q - 1];
      assert p < i ==> order[p].mtime <= order[i - 1].mtime;
    }
    InsertedSet(order, i, f);
  }

  lemma InsertedSet(order: seq<File>, i: nat, f: File)
    requires i <= |order|
    ensures multiset(order[..i] + [f] + order[i..]) == multiset(order) + multiset{f}
  {
    var a, z := order[..i], order[i..];
    OneMore(a, f, z);
    assert a + z == order;
  }

  lemma OneMore(a: seq<File>, f: File, z: seq<File>)
    ensures multiset(a + [f] + z) == multiset(a + z) + multiset{f}
  {
  }

  lemma SwapEmpty<T>(a: seq<T>, f: seq<T>, z: seq<T>)
    requires f == [] || z == []
    ensures (a + f) + z == (a + z) + f
  {
  }

  lemma LastEqual<T>(s: seq<T>, x: T, t: seq<T>, y: T)
    requires s + [x] == t + [y]
    ensures s == t && x == y
  {
    assert |s| == |t|;
    assert s == (s + [x])[..|s|] && t == (t + [y])[..|t|];
    assert x == (s + [x])[|s|] && y == (t + [y])[|t|];
  }

  lemma InsertedOfTime(order: seq<File>, i: nat, f: File, t: int)
    requires i <= |order| && forall j :: i <= j < |order| ==> order[j].mtime > f.mtime
    ensures OfTime(order[..i] + [f] + order[i..], t) == OfTime(order, t) + OfTime([f], t)
  {
    var a, z := order[..i], order[i..];
    assert order == a + z;
    OfTimeConcat(a, z, t);
    OfTimeConcat(a + [f], z, t);
    OfTimeConcat(a, [f], t);
    if f.mtime == t {
      OfTimeNone(z, t);
    } else {
      OfTimeNone([f], t);
    }
    SwapEmpty(OfTime(a, t), OfTime([f], t), OfTime(z, t));
  }

  method SortByMtime(files: seq<File>) returns (order: seq<File>)
    ensures StableSorted(files, order) && multiset(order) == multiset(files)
  {
    order := [];
    for i := 0 to |files|
      invariant StableSorted(files[..i], order) && multiset(order) == multiset(files[..i])
    {
      assert files[..i + 1] == files[..i] + [files[i]];
      order := InsertSorted(order, files[i], files[..i]);
    }
    assert files[..|files|] == files;
  }

  ghost predicate SameTimes(a: seq<File>, b: seq<File>) {
    forall t :: OfTime(a, t) == OfTime(b, t)
  }

  // A stable sort is unique, so the program's choice of algorithm does not matter.
  lemma StableSortUnique(files: seq<File>, a: seq<File>, b: seq<File>)
    requires StableSorted(files, a) && StableSorted(files, b)
    ensures a == b
  {
    forall t
      ensures OfTime(a, t) == OfTime(b, t)
    {
      assert OfTime(a, t) == OfTime(files, t) && OfTime(b, t) == OfTime(files, t);
    }
    SameTimesSame(a, b);
  }

  lemma {:induction false} SameTimesSame(a: seq<File>, b: seq<File>)
    requires ByMtime(a) && ByMtime(b) && SameTimes(a, b)
    ensures a == b
  {
    if a == [] || b == [] {
      FirstOfTime(a, b);
    } else {
      var x, y, a', b' := a[|a| - 1], b[|b| - 1], a[..|a| - 1], b[..|b| - 1];
      LastOfTime(a, b);
      LastOfTime(b, a);
      assert OfTime(a, x.mtime) == OfTime(b, x.mtime);
      LastEqual(OfTime(a', x.mtime), x, OfTime(b', x.mtime), y);
      forall t
        ensures OfTime(a', t) == OfTime(b', t)
      {
        assert OfTime(a, t) == OfTime(b, t);
        if t != x.mtime {
          assert OfTime(a', t) + [] == OfTime(a', t) && OfTime(b', t) + [] == OfTime(b', t);
        }
      }
      SameTimesSame(a', b');
      assert a == a' + [x] && b == b' + [y];
    }
  }

  // The last file of one order is not younger than that of the other.
  lemma LastOfTime(a: seq<File>, b: seq<File>)
    requires a != [] && b != [] && ByMtime(b) && SameTimes(a, b)
    ensures a[|a| - 1].mtime <= b[|b| - 1].mtime
  {
    var t := a[|a| - 1].mtime;
    assert OfTime(a, t) == OfTime(b, t);
    if forall f :: f in b ==> f.mtime != t {
      OfTimeNone(b, t);
    }
  }

  lemma FirstOfTime(a: seq<File>, b: seq<File>)
    requires (a == [] || b == []) && SameTimes(a, b)
    ensures a == b
  {
    NoneForNone(a, b);
    NoneForNone(b, a);
  }

  lemma NoneForNone(a: seq<File>, b: seq<File>)
    requires SameTimes(a, b)
    ensures a != [] ==> b != []
  {
    if a != [] {
      var t := a[|a| - 1].mtime;
      assert OfTime(a, t) == OfTime(b, t);
      assert OfTime(a, t) != [];
    }
  }

  // ---- How many files to evict ----

  // The least number of files from the front whose removal brings total down to target.
  function TrimCount(order: seq<File>, total: nat, target: nat): nat
    requires Bytes(order) <= total
  {
    if order == [] || total <= target then 0
    else
      FrontBytes(order);
      1 + TrimCount(order[1..], total - order[0].size, target)
  }

  lemma FrontBytes(order: seq<File>)
    requires order != []
    ensures Bytes(order) == order[0].size + Bytes(order[1..])
  {
    assert order == [order[0]] + order[1..];
    assert Bytes([order[0]]) == order[0].size by {
      assert [order[0]][..0] == [];
    }
    BytesConcat([order[0]], order[1..]);
  }

  // Removing that many reaches the target, and no fewer do.
  lemma {:induction false} TrimIsShortest(order: seq<File>, total: nat, target: nat)
    requires Bytes(order) == total
    ensures var k := TrimCount(order, total, target);
      && k <= |order| && total - Bytes(order[..k]) <= target
      && forall j :: 0 <= j < k ==> total - Bytes(order[..j]) > target
  {
    var k := TrimCount(order, total, target);
    if order != [] && total > target {
      FrontBytes(order);
      TrimIsShortest(order[1..], total - order[0].size, target);
      FrontBytes(order[..k]);
      assert order[..k][1..] == order[1..][..k - 1];
      forall j | 0 <= j < k
        ensures total - Bytes(order[..j]) > target
      {
        if j > 0 {
          FrontBytes(order[..j]);
          assert order[..j][1..] == order[1..][..j - 1];
        }
      }
    }
  }

  lemma {:induction false} BytesSame(a: seq<File>, b: seq<File>)
    requires multiset(a) == multiset(b)
    ensures Bytes(a) == Bytes(b)
  {
    assert |a| == |multiset(a)| == |multiset(b)| == |b|;
    if a != [] {
      var x, a' := a[|a| - 1], a[..|a| - 1];
      assert a == a' + [x];
      assert x in multiset(b);
      var i :| 0 <= i < |b| && b[i] == x;
      WithoutOne(b, i);
      assert multiset(a') == multiset(a) - multiset{x};
      BytesSame(a', b[..i] + b[i + 1..]);
    }
  }

  lemma WithoutOne(b: seq<File>, i: nat)
    requires i < |b|
    ensures multiset(b[..i] + b[i + 1..]) == multiset(b) - multiset{b[i]}
    ensures Bytes(b[..i] + b[i + 1..]) == Bytes(b) - b[i].size
  {
    SplitAt(b, i);
    TakeMiddle(b[..i], b[i], b[i + 1..]);
  }

  lemma SplitAt(b: seq<File>, i: nat)
    requires i < |b|
    ensures b[..i] + [b[i]] + b[i + 1..] == b
  {
  }

  lemma TakeMiddle(front: seq<File>, x: File, back: seq<File>)
    ensures multiset(front + back) == multiset(front + [x] + back) - multiset{x}
    ensures Bytes(front + back) == Bytes(front + [x] + back) - x.size
  {
    OneMore(front, x, back);
    BytesConcat(front, back);
    BytesConcat(front + [x], back);
    BytesSnoc(front, x);
  }

  // ---- The sweep ----

  class L2Lifecycle {
    const ttl: int
    const maxBytes: Option<nat>
    const trimRatio: real
    // The regular files below the root.
    var disk: set<File>
    var entries: nat
    var bytes: nat
    var expiredEntriesTotal: nat
    var expiredBytesTotal: nat
    var evictedEntriesTotal: nat
    var evictedBytesTotal: nat
    var errorsTotal: nat
    var healthy: bool

    ghost predicate Valid() {
      ttl >= 1 && (maxBytes.Some? ==> maxBytes.value > 0) && 0.0 < trimRatio < 1.0
    }

    // ValueError for any other settings.
    constructor (ttl: int, maxBytes: Option<nat>, trimRatio: real, disk: set<File>)
      requires ttl >= 1 && (maxBytes.Some? ==> maxBytes.value > 0) && 0.0 < trimRatio < 1.0
      ensures Valid() && this.ttl == ttl && this.maxBytes == maxBytes && this.trimRatio == trimRatio
      ensures this.disk == disk
      ensures expiredEntriesTotal == expiredBytesTotal == evictedEntriesTotal == evictedBytesTotal == errorsTotal == 0
      ensures !healthy
    {
      this.ttl, this.maxBytes, this.trimRatio, this.disk := ttl, maxBytes, trimRatio, disk;
      entries, bytes, expiredEntriesTotal, expiredBytesTotal := 0, 0, 0, 0;
      evictedEntriesTotal, evictedBytesTotal, errorsTotal, healthy := 0, 0, 0, false;
    }

    // The product, rounded down.
    function TrimTarget(): (target: nat)
      requires maxBytes.Some? && maxBytes.value > 0 && 0.0 < trimRatio < 1.0
      ensures target < maxBytes.value
      ensures target as real <= maxBytes.value as real * trimRatio < target as real + 1.0
    {
      ProductBelow(maxBytes.value as real, trimRatio);
      (maxBytes.value as real * trimRatio).Floor
    }

    // The files that are not idle for too long.
    ghost function Fresh(listing: seq<File>, now: int): seq<File> {
      Drop(listing, ExpiredSet(listing, ttl, now))
    }

    // One sweep over the files in the order listed. Every file as old as the time to live is
    // removed, and no other while the rest fits; else the shortest run of the oldest files
    // that brings the rest down to the target. order is the rest sorted.
    method ScanOnce(listing: seq<File>, now: int) returns (r: ScanResult, ghost order: seq<File>)
      requires Valid() && Distinct(listing) && Elems(listing) == disk
      modifies this
      ensures var kept := Fresh(listing, now);
        && r.expiredEntries == |listing| - |kept| && r.expiredBytes == Bytes(listing) - Bytes(kept) && r.errors == 0
        && (maxBytes.None? || Bytes(kept) <= maxBytes.value ==>
              && disk == Elems(kept) && r.entries == |kept| && r.bytes == Bytes(kept)
              && r.evictedEntries == r.evictedBytes == 0)
        && (maxBytes.Some? && Bytes(kept) > maxBytes.value ==>
              && StableSorted(kept, order) && multiset(order) == multiset(kept) && Bytes(order) == Bytes(kept)
              && r.evictedEntries == TrimCount(order, Bytes(order), TrimTarget()) <= |order|
              && r.evictedBytes == Bytes(order[..r.evictedEntries])
              && disk == Elems(order[r.evictedEntries..])
              && r.bytes == Bytes(order[r.evictedEntries..]) <= TrimTarget())
      ensures r.entries + r.expiredEntries + r.evictedEntries == |listing|
      ensures r.bytes + r.expiredBytes + r.evictedBytes == Bytes(listing)
      ensures r.entries == |disk| && entries == r.entries && bytes == r.bytes && healthy
      ensures expiredEntriesTotal == old(expiredEntriesTotal) + r.expiredEntries
      ensures expiredBytesTotal == old(expiredBytesTotal) + r.expiredBytes
      ensures evictedEntriesTotal == old(evictedEntriesTotal) + r.evictedEntries
      ensures evictedBytesTotal == old(evictedBytesTotal) + r.evictedBytes
      ensures errorsTotal == old(errorsTotal)
    {
      var kept, expiredEntries, expiredBytes := ExpirePass(listing, now);
      var evictedEntries, evictedBytes;
      evictedEntries, evictedBytes, order := TrimPass(kept);
      r := ScanResult(|kept| - evictedEntries, Bytes(kept) - evictedBytes, expiredEntries, expiredBytes, evictedEntries,
                      evictedBytes, 0);
      Record(r);
    }

    method Record(r: ScanResult)
      modifies this`entries, this`bytes, this`expiredEntriesTotal, this`expiredBytesTotal, this`evictedEntriesTotal
      modifies this`evictedBytesTotal
      modifies this`errorsTotal, this`healthy
      ensures entries == r.entries && bytes == r.bytes && healthy == (r.errors == 0)
      ensures errorsTotal == old(errorsTotal) + r.errors
      ensures expiredEntriesTotal == old(expiredEntriesTotal) + r.expiredEntries
      ensures expiredBytesTotal == old(expiredBytesTotal) + r.expiredBytes
      ensures evictedEntriesTotal == old(evictedEntriesTotal) + r.evictedEntries
      ensures evictedBytesTotal == old(evictedBytesTotal) + r.evictedBytes
    {
      entries, bytes := r.entries, r.bytes;
      expiredEntriesTotal := expiredEntriesTotal + r.expiredEntries;
      expiredBytesTotal := expiredBytesTotal + r.expiredBytes;
      evictedEntriesTotal := evictedEntriesTotal + r.evictedEntries;
      evictedBytesTotal := evictedBytesTotal + r.evictedBytes;
      errorsTotal := errorsTotal + r.errors;
      healthy := r.errors == 0;
    }

    method ExpirePass(listing: seq<File>, now: int) returns (kept: seq<File>, expiredEntries: nat, expiredBytes: nat)
      requires Distinct(listing) && Elems(listing) == disk
      modifies this`disk
      ensures kept == Fresh(listing, now) && Distinct(kept) && disk == Elems(kept)
      ensures expiredEntries == |listing| - |kept| && expiredBytes == Bytes(listing) - Bytes(kept)
    {
      kept, expiredEntries, expiredBytes := [], 0, 0;
      ghost var idle := ExpiredSet(listing, ttl, now);
      ghost var front, rest: seq<File> := [], listing;
      for i := 0 to |listing|
        invariant front == listing[..i] && rest == listing[i..] && kept == Drop(front, idle)
        invariant expiredEntries + |kept| == i && expiredBytes + Bytes(kept) == Bytes(front)
        invariant disk == Elems(kept) + Elems(rest)
      {
        var f := listing[i];
        front, rest := NextFile(listing, i, idle, kept);
        if now - f.mtime >= ttl {
          disk := disk - {f};
          expiredEntries := expiredEntries + 1;
          expiredBytes := expiredBytes + f.size;
        } else {
          kept := kept + [f];
        }
      }
      assert listing[..|listing|] == listing;
      DropDistinct(listing, idle);
    }

    // Removes the oldest files while the rest is above the target.
    method TrimPass(kept: seq<File>) returns (evictedEntries: nat, evictedBytes: nat, ghost order: seq<File>)
      requires Valid() && Distinct(kept) && disk == Elems(kept)
      modifies this`disk
      ensures maxBytes.None? || Bytes(kept) <= maxBytes.value ==>
                evictedEntries == evictedBytes == 0 && disk == old(disk)
      ensures maxBytes.Some? && Bytes(kept) > maxBytes.value ==>
                && StableSorted(kept, order) && multiset(order) == multiset(kept) && Bytes(order) == Bytes(kept)
                && evictedEntries == TrimCount(order, Bytes(order), TrimTarget()) <= |order|
                && evictedBytes == Bytes(order[..evictedEntries])
                && disk == Elems(order[evictedEntries..]) && Bytes(order[evictedEntries..]) <= TrimTarget()
                && evictedBytes + Bytes(order[evictedEntries..]) == Bytes(kept)
      ensures evictedEntries <= |kept| && |disk| == |kept| - evictedEntries && evictedBytes <= Bytes(kept)
    {
      evictedEntries, evictedBytes, order := 0, 0, [];
      DistinctSize(kept);
      if maxBytes.None? || Bytes(kept) <= maxBytes.value {
        return;
      }
      var sorted := SortByMtime(kept);
      order := sorted;
      SortedFacts(kept, order);
      evictedEntries, evictedBytes := Evict(sorted, Bytes(kept), TrimTarget());
      Rest(order, evictedEntries);
    }

    method Evict(order: seq<File>, total: nat, target: nat) returns (evictedEntries: nat, evictedBytes: nat)
      requires Distinct(order) && disk == Elems(order) && total == Bytes(order)
      modifies this`disk
      ensures evictedEntries == TrimCount(order, total, target) <= |order|
      ensures evictedBytes == Bytes(order[..evictedEntries])
      ensures disk == Elems(order[evictedEntries..]) && Bytes(order[evictedEntries..]) <= target
    {
      evictedEntries, evictedBytes := 0, 0;
      var bytesUsed := total;
      ghost var gone, rest, count := order[..0], order, TrimCount(order, total, target);
      while evictedEntries < |order| && bytesUsed > target
        invariant evictedEntries <= |order| && gone == order[..evictedEntries] && rest == order[evictedEntries..]
        invariant bytesUsed == Bytes(rest) && evictedBytes == Bytes(gone) && disk == Elems(rest)
        invariant TrimCount(rest, bytesUsed, target) == count - evictedEntries
        decreases |order| - evictedEntries
      {
        var f := order[evictedEntries];
        gone, rest := OldestGone(order, evictedEntries, bytesUsed, target);
        disk := disk - {f};
        bytesUsed := bytesUsed - f.size;
        evictedBytes := evictedBytes + f.size;
        evictedEntries := evictedEntries + 1;
      }
      if evictedEntries == |order| {
        assert rest == [];
      }
    }
  }

  // The files left by the first pass are those younger than the time to live.
  lemma FreshFiles(c: L2Lifecycle, listing: seq<File>, now: int)
    ensures forall f :: f in c.Fresh(listing, now) <==> f in listing && now - f.mtime < c.ttl
  {
    DropMembers(listing, ExpiredSet(listing, c.ttl, now));
  }

  lemma ProductBelow(m: real, ratio: real)
    requires m > 0.0 && 0.0 < ratio < 1.0
    ensures 0.0 < m * ratio < m
  {
    assert m * (1.0 - ratio) > 0.0;
  }

  lemma Rest(order: seq<File>, k: nat)
    requires Distinct(order) && k <= |order|
    ensures Bytes(order[..k]) + Bytes(order[k..]) == Bytes(order) && |Elems(order[k..])| == |order| - k
  {
    BytesConcat(order[..k], order[k..]);
    assert order[..k] + order[k..] == order;
    DistinctSize(order[k..]);
  }

  // One more file of the listing is passed: it leaves the disk, or joins the kept ones.
  lemma NextFile(listing: seq<File>, i: nat, idle: set<File>, kept: seq<File>)
    returns (front: seq<File>, rest: seq<File>)
    requires i < |listing| && Distinct(listing) && kept == Drop(listing[..i], idle)
    ensures front == listing[..i + 1] && rest == listing[i + 1..]
    ensures Drop(front, idle) == (if listing[i] in idle then kept else kept + [listing[i]])
    ensures Bytes(front) == Bytes(listing[..i]) + listing[i].size
    ensures Bytes(kept + [listing[i]]) == Bytes(kept) + listing[i].size
    ensures (Elems(kept) + Elems(listing[i..])) - {listing[i]} == Elems(kept) + Elems(rest)
    ensures Elems(kept) + Elems(listing[i..]) == Elems(kept + [listing[i]]) + Elems(rest)
  {
    var before, f := listing[..i], listing[i];
    front, rest := listing[..i + 1], listing[i + 1..];
    CutAt(listing, i);
    NotBefore(listing, i, idle);
    NextDropped(before, f, idle);
    BytesSnoc(before, f);
    BytesSnoc(kept, f);
    NextOnDisk(kept, f, rest);
  }

  lemma CutAt(s: seq<File>, i: nat)
    requires i < |s|
    ensures s[..i + 1] == s[..i] + [s[i]] && s[i..] == [s[i]] + s[i + 1..]
  {
  }

  lemma NextOnDisk(kept: seq<File>, f: File, rest: seq<File>)
    requires f !in kept && f !in rest
    ensures (Elems(kept) + Elems([f] + rest)) - {f} == Elems(kept) + Elems(rest)
    ensures Elems(kept) + Elems([f] + rest) == Elems(kept + [f]) + Elems(rest)
  {
    ElemsAround(kept, f, rest);
    SetStep(Elems(kept), f, Elems(rest));
  }

  lemma BytesSnoc(s: seq<File>, f: File)
    ensures Bytes(s + [f]) == Bytes(s) + f.size
  {
    assert (s + [f])[..|s|] == s;
  }

  lemma ElemsAround(a: seq<File>, f: File, z: seq<File>)
    ensures Elems(a + [f]) == Elems(a) + {f} && Elems([f] + z) == {f} + Elems(z)
  {
  }

  lemma SetStep(a: set<File>, f: File, z: set<File>)
    requires f !in a && f !in z
    ensures (a + ({f} + z)) - {f} == a + z && a + ({f} + z) == (a + {f}) + z
  {
  }

  lemma NextDropped(front: seq<File>, f: File, idle: set<File>)
    ensures Drop(front + [f], idle) == if f in idle then Drop(front, idle) else Drop(front, idle) + [f]
  {
    DropConcat(front, [f], idle);
    assert Drop(front, idle) + [] == Drop(front, idle);
  }

  // A file is listed once.
  lemma NotBefore(listing: seq<File>, i: nat, idle: set<File>)
    requires Distinct(listing) && i < |listing|
    ensures listing[i] !in Drop(listing[..i], idle) && listing[i] !in listing[i + 1..]
  {
    DropMembers(listing[..i], idle);
  }

  // The oldest file of the rest goes.
  lemma OldestGone(order: seq<File>, i: nat, used: nat, target: nat) returns (gone: seq<File>, rest: seq<File>)
    requires Distinct(order) && i < |order| && used == Bytes(order[i..]) > target
    ensures gone == order[..i + 1] && rest == order[i + 1..] && order[i].size <= used
    ensures Bytes(gone) == Bytes(order[..i]) + order[i].size && Bytes(rest) == used - order[i].size
    ensures Elems(rest) == Elems(order[i..]) - {order[i]}
    ensures TrimCount(rest, used - order[i].size, target) == TrimCount(order[i..], used, target) - 1
  {
    gone, rest := order[..i + 1], order[i + 1..];
    NextOldest(order, i);
    TrimNext(order, i, used, target);
  }

  lemma NextOldest(order: seq<File>, i: nat)
    requires Distinct(order) && i < |order|
    ensures Bytes(order[i..]) == order[i].size + Bytes(order[i + 1..])
    ensures Bytes(order[..i + 1]) == Bytes(order[..i]) + order[i].size
    ensures Elems(order[i + 1..]) == Elems(order[i..]) - {order[i]}
    ensures order[i..][1..] == order[i + 1..]
  {
    FrontBytes(order[i..]);
    assert order[i..][1..] == order[i + 1..];
    assert order[..i + 1][..i] == order[..i];
    assert order[i..] == [order[i]] + order[i + 1..];
  }

  // As long as the rest is above the target, one more has to go.
  lemma TrimNext(order: seq<File>, i: nat, used: nat, target: nat)
    requires i < |order| && used == Bytes(order[i..]) > target
    ensures order[i].size <= used && Bytes(order[i + 1..]) == used - order[i].size
    ensures TrimCount(order[i..], used, target) == 1 + TrimCount(order[i + 1..], used - order[i].size, target)
  {
    var rest := order[i..];
    FrontBytes(rest);
    assert rest[0] == order[i] && rest[1..] == order[i + 1..];
  }

  lemma SortedFacts(kept: seq<File>, order: seq<File>)
    requires Distinct(kept) && multiset(order) == multiset(kept)
    ensures Distinct(order) && Elems(order) == Elems(kept) && Bytes(order) == Bytes(kept) && |order| == |kept|
  {
    BytesSame(order, kept);
    assert |order| == |multiset(order)| == |multiset(kept)| == |kept|;
    forall f
      ensures f in order <==> f in kept
    {
      assert f in multiset(order) <==> f in multiset(kept);
    }
    forall i, j | 0 <= i < j < |order|
      ensures order[i] != order[j]
    {
      if order[i] == order[j] {
        Twice(order, i, j);
        OnlyOnce(kept, order[i]);
      }
    }
  }

  lemma Twice(s: seq<File>, i: nat, j: nat)
    requires i < j < |s| && s[i] == s[j]
    ensures multiset(s)[s[i]] >= 2
  {
    assert s == s[..i] + [s[i]] + s[i + 1..j] + [s[j]] + s[j + 1..];
  }

  lemma {:induction false} OnlyOnce(s: seq<File>, f: File)
    requires Distinct(s)
    ensures multiset(s)[f] <= 1
  {
    if s != [] {
      var front, last := s[..|s| - 1], s[|s| - 1];
      assert s == front + [last];
      OnlyOnce(front, f);
      assert last !in front;
    }
  }
}
