/** Strings as the program compares, trims and prints them. */
module Text {

  /** Go's string order, code point by code point. */
  predicate StrLe(a: string, b: string) {
    a == [] || (b != [] && (a[0] < b[0] || (a[0] == b[0] && StrLe(a[1..], b[1..]))))
  }

  lemma {:induction false} StrLeTotal(a: string, b: string)
    ensures StrLe(a, b) || StrLe(b, a)
  {
    if a != [] && b != [] { StrLeTotal(a[1..], b[1..]); }
  }

  lemma {:induction false} StrLeTransitive(a: string, b: string, c: string)
    requires StrLe(a, b) && StrLe(b, c)
    ensures StrLe(a, c)
  {
    if a != [] && a[0] == b[0] == c[0] { StrLeTransitive(a[1..], b[1..], c[1..]); }
  }

  lemma {:induction false} StrLeAntisymmetric(a: string, b: string)
    requires StrLe(a, b) && StrLe(b, a)
    ensures a == b
  {
    if a != [] && b != [] {
      StrLeAntisymmetric(a[1..], b[1..]);
      assert a == [a[0]] + a[1..] && b == [b[0]] + b[1..];
    }
  }
}

/** sort.Slice: a permutation of the input, ordered by the given comparison. */
module Sorting {
  import opened Text

  ghost predicate TotalPreorder<T(!new)>(le: (T, T) -> bool) {
    && (forall a, b :: le(a, b) || le(b, a))
    && (forall a, b, c :: le(a, b) && le(b, c) ==> le(a, c))
  }

  ghost predicate Ordered<T>(xs: seq<T>, le: (T, T) -> bool) {
    forall i, j :: 0 <= i < j < |xs| ==> le(xs[i], xs[j])
  }

  lemma InsertOrdered<T(!new)>(ys: seq<T>, j: nat, x: T, le: (T, T) -> bool)
    requires j <= |ys| && Ordered(ys, le)
    requires forall k :: 0 <= k < j ==> le(ys[k], x)
    requires forall k :: j <= k < |ys| ==> le(x, ys[k])
    ensures Ordered(ys[..j] + [x] + ys[j..], le)
  {
  }

  lemma InsertMultiset<T>(ys: seq<T>, j: nat, x: T)
    requires j <= |ys|
    ensures multiset(ys[..j] + [x] + ys[j..]) == multiset(ys) + multiset{x}
  {
    assert ys == ys[..j] + ys[j..];
  }

  /** Places x after every element it does not precede. */
  method Insert<T(!new)>(ys: seq<T>, x: T, le: (T, T) -> bool) returns (zs: seq<T>)
    requires TotalPreorder(le) && Ordered(ys, le)
    ensures multiset(zs) == multiset(ys) + multiset{x}
    ensures Ordered(zs, le)
  {
    var j := |ys|;
    while j > 0 && !le(ys[j - 1], x)
      invariant 0 <= j <= |ys|
      invariant forall k :: j <= k < |ys| ==> le(x, ys[k])
    {
      j := j - 1;
    }
    forall k | 0 <= k < j ensures le(ys[k], x) {
      if k < j - 1 { assert le(ys[k], ys[j - 1]); }
    }
    InsertOrdered(ys, j, x, le);
    InsertMultiset(ys, j, x);
    zs := ys[..j] + [x] + ys[j..];
  }

  method SortBy<T(!new)>(xs: seq<T>, le: (T, T) -> bool) returns (ys: seq<T>)
    requires TotalPreorder(le)
    ensures multiset(ys) == multiset(xs)
    ensures Ordered(ys, le)
  {
    ys := [];
    for i := 0 to |xs|
      invariant multiset(ys) == multiset(xs[..i])
      invariant Ordered(ys, le)
    {
      ys := Insert(ys, xs[i], le);
      assert xs[..i + 1] == xs[..i] + [xs[i]];
    }
    assert xs[..|xs|] == xs;
  }

  /** A permutation keeps membership and distinctness of elements. */
  lemma PermutationMembers<T>(xs: seq<T>, ys: seq<T>)
    requires multiset(xs) == multiset(ys)
    ensures |xs| == |ys|
    ensures forall x :: x in xs <==> x in ys
  {
    assert |multiset(xs)| == |xs| && |multiset(ys)| == |ys|;
    forall x ensures x in xs <==> x in ys {
      assert x in xs <==> x in multiset(xs);
      assert x in ys <==> x in multiset(ys);
    }
  }

  ghost predicate Distinct<T>(xs: seq<T>) {
    forall i, j :: 0 <= i < j < |xs| ==> xs[i] != xs[j]
  }

  lemma {:induction false} DistinctMultiplicity<T>(xs: seq<T>)
    ensures Distinct(xs) <==> forall x :: multiset(xs)[x] <= 1
  {
    if xs != [] {
      var head, last := xs[..|xs| - 1], xs[|xs| - 1];
      assert xs == head + [last];
      DistinctMultiplicity(head);
      assert forall x :: multiset(xs)[x] == multiset(head)[x] + multiset([last])[x];
      if Distinct(xs) {
        assert last !in head;
        forall x ensures multiset(xs)[x] <= 1 { assert multiset(head)[x] <= 1; }
      }
      if forall x :: multiset(xs)[x] <= 1 {
        assert multiset(xs)[last] <= 1;
        assert last !in head;
        forall x ensures multiset(head)[x] <= 1 { assert multiset(xs)[x] <= 1; }
      }
    }
  }

  lemma PermutationDistinct<T>(xs: seq<T>, ys: seq<T>)
    requires multiset(xs) == multiset(ys) && Distinct(xs)
    ensures Distinct(ys)
  {
    DistinctMultiplicity(xs);
    DistinctMultiplicity(ys);
  }

  /** Ids in order, each once, are determined by which they are. */
  lemma {:induction false} SortedIdsAreUnique(xs: seq<string>, ys: seq<string>)
    requires Ordered(xs, StrLe) && Distinct(xs) && Ordered(ys, StrLe) && Distinct(ys)
    requires forall id :: id in xs <==> id in ys
    ensures xs == ys
  {
    hide StrLe;
    assert ys != [] ==> ys[0] in xs;
    if xs != [] {
      assert xs[0] in ys && ys[0] in xs;
      FirstIsLeast(xs, ys[0]);
      FirstIsLeast(ys, xs[0]);
      if xs[0] != ys[0] { StrLeAntisymmetric(xs[0], ys[0]); }
      assert xs == [xs[0]] + xs[1..] && ys == [ys[0]] + ys[1..];
      forall id ensures id in xs[1..] <==> id in ys[1..] { TailMembers(xs, id); TailMembers(ys, id); }
      SortedIdsAreUnique(xs[1..], ys[1..]);
    }
  }

  lemma FirstIsLeast(xs: seq<string>, x: string)
    requires Ordered(xs, StrLe) && x in xs
    ensures x == xs[0] || StrLe(xs[0], x)
  {
    var i :| 0 <= i < |xs| && xs[i] == x;
  }

  lemma TailMembers(xs: seq<string>, id: string)
    requires xs != [] && Distinct(xs)
    ensures id in xs[1..] <==> id in xs && id != xs[0]
  {
    assert xs == [xs[0]] + xs[1..];
  }
}
