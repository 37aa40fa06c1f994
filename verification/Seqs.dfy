// Order-preserving selections from a sequence, used for every queue operation.
module Seqs {

  ghost predicate Distinct<T>(s: seq<T>) {
    forall i, j :: 0 <= i < j < |s| ==> s[i] != s[j]
  }

  // Distinctness again, looked at only where Apart is mentioned: in a proof about pointers
  // the quantifier of Distinct is instantiated far too often.
  ghost predicate Apart(i: int, j: int) {
    true
  }

  ghost predicate NoDup<T>(s: seq<T>) {
    forall i, j {:trigger Apart(i, j)} :: Apart(i, j) && 0 <= i < j < |s| ==> s[i] != s[j]
  }

  lemma NoDupIffDistinct<T>(s: seq<T>)
    ensures NoDup(s) <==> Distinct(s)
  {
    if NoDup(s) {
      forall i, j | 0 <= i < j < |s|
        ensures s[i] != s[j]
      {
        assert Apart(i, j);
      }
    }
  }

  lemma OnlyAt<T>(s: seq<T>, i: nat)
    requires NoDup(s) && i < |s|
    ensures forall j {:trigger s[j]} :: 0 <= j < |s| && s[j] == s[i] ==> j == i
  {
    NoDupIffDistinct(s);
  }

  function Elems<T>(s: seq<T>): set<T> {
    set x | x in s
  }

  // The elements of s that lie in keep, in order.
  function Keep<T(==)>(s: seq<T>, keep: set<T>): seq<T>
  {
    if s == [] then []
    else (if s[0] in keep then [s[0]] else []) + Keep(s[1..], keep)
  }

  // The elements of s that do not lie in gone, in order.
  function Drop<T(==)>(s: seq<T>, gone: set<T>): seq<T>
  {
    if s == [] then []
    else (if s[0] in gone then [] else [s[0]]) + Drop(s[1..], gone)
  }

  // The first n elements, or all of them.
  function First<T>(s: seq<T>, n: nat): seq<T> {
    if n <= |s| then s[..n] else s
  }

  lemma {:induction false} KeepMembers<T>(s: seq<T>, keep: set<T>)
    ensures forall x :: x in Keep(s, keep) <==> x in s && x in keep
  {
    if s != [] {
      KeepMembers(s[1..], keep);
      assert s == [s[0]] + s[1..];
    }
  }

  lemma {:induction false} DropMembers<T>(s: seq<T>, gone: set<T>)
    ensures forall x :: x in Drop(s, gone) <==> x in s && x !in gone
  {
    if s != [] {
      DropMembers(s[1..], gone);
      assert s == [s[0]] + s[1..];
    }
  }

  lemma ConcatTail<T>(a: seq<T>, b: seq<T>)
    requires a != []
    ensures a + b != [] && (a + b)[0] == a[0] && (a + b)[1..] == a[1..] + b
  {
  }

  lemma ConcatAssoc<T>(a: seq<T>, b: seq<T>, c: seq<T>)
    ensures a + (b + c) == (a + b) + c
  {
  }

  lemma {:induction false} KeepConcat<T>(a: seq<T>, b: seq<T>, keep: set<T>)
    ensures Keep(a + b, keep) == Keep(a, keep) + Keep(b, keep)
  {
    if a == [] {
      assert a + b == b;
    } else {
      KeepConcat(a[1..], b, keep);
      ConcatTail(a, b);
      ConcatAssoc(if a[0] in keep then [a[0]] else [], Keep(a[1..], keep), Keep(b, keep));
    }
  }

  lemma {:induction false} DropConcat<T>(a: seq<T>, b: seq<T>, gone: set<T>)
    ensures Drop(a + b, gone) == Drop(a, gone) + Drop(b, gone)
  {
    if a == [] {
      assert a + b == b;
    } else {
      DropConcat(a[1..], b, gone);
      ConcatTail(a, b);
      ConcatAssoc(if a[0] in gone then [] else [a[0]], Drop(a[1..], gone), Drop(b, gone));
    }
  }

  lemma DistinctConcat<T>(a: seq<T>, b: seq<T>)
    requires Distinct(a) && Distinct(b) && forall x :: x in a ==> x !in b
    ensures Distinct(a + b)
  {
    forall i, j | 0 <= i < j < |a + b|
      ensures (a + b)[i] != (a + b)[j]
    {
      if i < |a| <= j {
        assert a[i] in a && b[j - |a|] in b;
      }
    }
  }

  // s without its two ends.
  function Inner<T>(s: seq<T>): seq<T> {
    if |s| >= 2 then s[1..|s| - 1] else []
  }

  // s with mid put before position k, described element by element.
  lemma Splice<T>(s: seq<T>, k: nat, mid: seq<T>) returns (all: seq<T>)
    requires NoDup(s) && Distinct(mid) && (forall x :: x in mid ==> x !in s) && 0 < k < |s|
    ensures |all| == |s| + |mid| && NoDup(all)
    ensures forall i {:trigger all[i]} :: 0 <= i < k ==> all[i] == s[i]
    ensures forall i {:trigger all[i]} :: k <= i < k + |mid| ==> all[i] == mid[i - k]
    ensures forall i {:trigger all[i]} :: k + |mid| <= i < |all| ==> all[i] == s[i - |mid|]
    ensures Inner(all) == s[1..k] + mid + s[k..|s| - 1]
  {
    all := s[..k] + mid + s[k..];
    NoDupIffDistinct(s);
    NoDupIffDistinct(all);
    forall x | x in s[..k]
      ensures x in s && x !in s[k..]
    {
      var i :| 0 <= i < k && s[i] == x;
    }
    DistinctConcat(s[..k], mid);
    assert forall x :: x in s[k..] ==> x in s;
    DistinctConcat(s[..k] + mid, s[k..]);
  }

  // s without its elements at positions lo up to hi, described element by element.
  lemma Cut<T>(s: seq<T>, lo: nat, hi: nat) returns (all: seq<T>)
    requires NoDup(s) && 0 < lo <= hi < |s|
    ensures |all| == |s| - (hi - lo) && NoDup(all)
    ensures forall i {:trigger all[i]} :: 0 <= i < lo ==> all[i] == s[i]
    ensures forall i {:trigger all[i]} :: lo <= i < |all| ==> all[i] == s[i + hi - lo]
    ensures Inner(all) == s[1..lo] + s[hi..|s| - 1]
  {
    all := s[..lo] + s[hi..];
    NoDupIffDistinct(s);
    NoDupIffDistinct(all);
  }

  lemma DistinctTail<T>(s: seq<T>)
    requires Distinct(s) && s != []
    ensures Distinct(s[1..]) && s[0] !in s[1..]
  {
  }

  lemma {:induction false} KeepDistinct<T>(s: seq<T>, keep: set<T>)
    requires Distinct(s)
    ensures Distinct(Keep(s, keep))
  {
    if s != [] {
      DistinctTail(s);
      KeepDistinct(s[1..], keep);
      KeepMembers(s[1..], keep);
    }
  }

  lemma {:induction false} DropDistinct<T>(s: seq<T>, gone: set<T>)
    requires Distinct(s)
    ensures Distinct(Drop(s, gone))
  {
    if s != [] {
      DistinctTail(s);
      DropDistinct(s[1..], gone);
      DropMembers(s[1..], gone);
    }
  }

  // Only membership of the elements of s matters to a selection.
  lemma {:induction false} DropSame<T>(s: seq<T>, g1: set<T>, g2: set<T>)
    requires forall x :: x in s ==> (x in g1 <==> x in g2)
    ensures Drop(s, g1) == Drop(s, g2)
  {
    if s != [] {
      DropSame(s[1..], g1, g2);
    }
  }

  lemma {:induction false} KeepSame<T>(s: seq<T>, k1: set<T>, k2: set<T>)
    requires forall x :: x in s ==> (x in k1 <==> x in k2)
    ensures Keep(s, k1) == Keep(s, k2)
  {
    if s != [] {
      KeepSame(s[1..], k1, k2);
    }
  }

  // Keeping one part is dropping the other.
  lemma {:induction false} KeepIsDrop<T>(s: seq<T>, keep: set<T>, gone: set<T>)
    requires forall x :: x in s ==> (x in keep <==> x !in gone)
    ensures Keep(s, keep) == Drop(s, gone) && Drop(s, keep) == Keep(s, gone)
  {
    if s != [] {
      KeepIsDrop(s[1..], keep, gone);
    }
  }

  lemma {:induction false} DropNothing<T>(s: seq<T>, gone: set<T>)
    requires forall x :: x in s ==> x !in gone
    ensures Drop(s, gone) == s
  {
    if s != [] {
      DropNothing(s[1..], gone);
    }
  }

  lemma {:induction false} KeepAll<T>(s: seq<T>, keep: set<T>)
    requires forall x :: x in s ==> x in keep
    ensures Keep(s, keep) == s
  {
    if s != [] {
      KeepAll(s[1..], keep);
    }
  }

  lemma {:induction false} DropDrop<T>(s: seq<T>, g1: set<T>, g2: set<T>)
    ensures Drop(Drop(s, g1), g2) == Drop(s, g1 + g2)
  {
    if s != [] {
      DropDrop(s[1..], g1, g2);
      DropConcat(if s[0] in g1 then [] else [s[0]], Drop(s[1..], g1), g2);
    }
  }

  lemma {:induction false} KeepOfDrop<T>(s: seq<T>, gone: set<T>, keep: set<T>)
    ensures Keep(Drop(s, gone), keep) == Keep(s, keep - gone)
  {
    if s != [] {
      KeepOfDrop(s[1..], gone, keep);
      KeepConcat(if s[0] in gone then [] else [s[0]], Drop(s[1..], gone), keep);
    }
  }

  lemma {:induction false} SplitLengths<T>(s: seq<T>, part: set<T>)
    ensures |Keep(s, part)| + |Drop(s, part)| == |s|
  {
    if s != [] {
      SplitLengths(s[1..], part);
    }
  }

  // Removing one element of a distinct sequence cuts it out of its place.
  lemma {:induction false} DropAt<T>(s: seq<T>, k: nat)
    requires Distinct(s) && k < |s|
    ensures Drop(s, {s[k]}) == s[..k] + s[k + 1..]
  {
    DropAround(s[..k], s[k], s[k + 1..]);
    assert s == s[..k] + ([s[k]] + s[k + 1..]);
  }

  lemma DropAround<T>(a: seq<T>, x: T, z: seq<T>)
    requires x !in a && x !in z
    ensures Drop(a + ([x] + z), {x}) == a + z
  {
    DropNothing(a, {x});
    DropNothing(z, {x});
    DropConcat(a, [x] + z, {x});
    ConcatTail([x], z);
    assert [x][1..] + z == z && [] + z == z;
  }

  lemma CutFront<T>(s: seq<T>, n: nat)
    requires n + 2 <= |s|
    ensures Inner(s)[..n] == s[1..n + 1]
    ensures Inner(s)[n..] == s[1..1] + s[n + 1..|s| - 1]
  {
  }

  lemma CutOne<T>(s: seq<T>, k: nat)
    requires NoDup(s) && 0 < k < |s| - 1
    ensures s[1..k] + s[k + 1..|s| - 1] == Drop(Inner(s), {s[k]})
    ensures s[1..k] + s[k + 1..|s| - 1] == Inner(s)[..k - 1] + Inner(s)[k..]
    ensures s[k] in Inner(s) && s[k] == Inner(s)[k - 1]
  {
    NoDupIffDistinct(s);
    DropAt(Inner(s), k - 1);
    assert Inner(s)[..k - 1] == s[1..k];
    assert Inner(s)[k..] == s[k + 1..|s| - 1];
  }

  lemma {:induction false} DistinctSize<T>(s: seq<T>)
    requires Distinct(s)
    ensures |Elems(s)| == |s|
  {
    if s != [] {
      DistinctTail(s);
      DistinctSize(s[1..]);
      assert Elems(s) == {s[0]} + Elems(s[1..]);
    }
  }
}
