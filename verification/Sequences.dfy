/** Facts about sequences and sets used when results arrive in an arbitrary order. */
module Sequences {

  function Mapped<A, B>(f: A -> B, s: seq<A>): (r: seq<B>)
    ensures |r| == |s| && forall i :: 0 <= i < |s| ==> r[i] == f(s[i])
  {
    seq(|s|, i requires 0 <= i < |s| => f(s[i]))
  }

  lemma MappedOneMore<A, B>(f: A -> B, s: seq<A>, x: A)
    ensures Mapped(f, s + [x]) == Mapped(f, s) + [f(x)]
  {
  }

  function UpTo(n: nat): (r: seq<nat>)
    ensures |r| == n && forall i :: 0 <= i < n ==> r[i] == i
  {
    seq(n, i => i)
  }

  ghost predicate NoDups<T>(s: seq<T>) {
    forall i, j :: 0 <= i < j < |s| ==> s[i] != s[j]
  }

  function Without<T>(s: seq<T>, i: nat): seq<T>
    requires i < |s|
  {
    s[..i] + s[i + 1..]
  }

  lemma SplitAt<T>(s: seq<T>, i: nat)
    requires i < |s|
    ensures multiset(s) == multiset(Without(s, i)) + multiset{s[i]}
  {
    assert s == s[..i] + [s[i]] + s[i + 1..];
  }

  lemma MappedSplitAt<A, B>(f: A -> B, s: seq<A>, i: nat)
    requires i < |s|
    ensures multiset(Mapped(f, s)) == multiset(Mapped(f, Without(s, i))) + multiset{f(s[i])}
  {
    SplitAt(Mapped(f, s), i);
    assert Without(Mapped(f, s), i) == Mapped(f, Without(s, i));
  }

  lemma {:induction false} MappedPermutation<A, B>(f: A -> B, a: seq<A>, b: seq<A>)
    requires multiset(a) == multiset(b)
    ensures multiset(Mapped(f, a)) == multiset(Mapped(f, b))
  {
    if a == [] {
      assert |multiset(b)| == 0;
    } else {
      assert a[0] in multiset(b);
      var i :| 0 <= i < |b| && b[i] == a[0];
      SplitAt(a, 0);
      SplitAt(b, i);
      assert multiset(Without(a, 0)) == multiset(a) - multiset{a[0]} == multiset(Without(b, i));
      MappedPermutation(f, Without(a, 0), Without(b, i));
      MappedSplitAt(f, a, 0);
      MappedSplitAt(f, b, i);
    }
  }

  /** Duplicate-free sequences with the same elements are permutations of each other. */
  lemma {:induction false} SameElements<T>(a: seq<T>, b: seq<T>)
    requires NoDups(a) && NoDups(b)
    requires forall x :: x in a <==> x in b
    ensures multiset(a) == multiset(b)
  {
    forall x ensures multiset(a)[x] == multiset(b)[x] {
      CountOne(a, x);
      CountOne(b, x);
    }
  }

  lemma {:induction false} CountOne<T>(s: seq<T>, x: T)
    requires NoDups(s)
    ensures multiset(s)[x] == if x in s then 1 else 0
  {
    if s != [] {
      SplitAt(s, 0);
      assert Without(s, 0) == s[1..];
      CountOne(s[1..], x);
      assert x in s <==> x == s[0] || x in s[1..];
    }
  }

  lemma SubsetSize<T>(a: set<T>, b: set<T>)
    requires a <= b
    ensures |a| <= |b|
  {
    assert b == a + (b - a);
  }

  /** Items taken from `expected` in some order, each position once, are a permutation of it. */
  lemma VisitedInAnyOrder<B>(order: seq<nat>, results: seq<B>, expected: seq<B>)
    requires NoDups(order) && |results| == |order|
    requires forall i: nat :: i in order <==> i < |expected|
    requires forall i :: 0 <= i < |order| ==> order[i] < |expected| && results[i] == expected[order[i]]
    ensures multiset(results) == multiset(expected)
    ensures multiset(order) == multiset(UpTo(|expected|))
  {
    var n := |expected|;
    assert forall i :: i in UpTo(n) <==> i in order by {
      forall i | i in order ensures i in UpTo(n) { assert UpTo(n)[i] == i; }
    }
    SameElements(order, UpTo(n));
    assert |multiset(order)| == |multiset(UpTo(n))|;
    if n > 0 {
      var f := (i: nat) => if i < n then expected[i] else expected[0];
      MappedPermutation(f, order, UpTo(n));
      forall i | 0 <= i < |order| ensures results[i] == f(order[i]) { assert order[i] in order; }
      assert results == Mapped(f, order);
      assert expected == Mapped(f, UpTo(n));
    }
  }

  /** The place in s of what is at i in Without(s, k). */
  function Past(k: nat, i: nat): nat { if i < k then i else i + 1 }

  lemma PlacePast<T>(s: seq<T>, k: nat, places: seq<nat>)
    requires k < |s| && NoDups(places) && forall i :: 0 <= i < |places| ==> places[i] < |s| - 1
    ensures var moved := Mapped((i: nat) => Past(k, i), places) + [k];
            && NoDups(moved)
            && forall i :: 0 <= i < |places| ==> moved[i] < |s| && s[moved[i]] == Without(s, k)[places[i]]
  {
  }

  lemma TakeLast<T>(items: seq<T>, permuted: seq<T>) returns (k: nat)
    requires multiset(permuted) == multiset(items) && items != []
    ensures k < |permuted| && permuted[k] == items[|items| - 1]
    ensures multiset(Without(permuted, k)) == multiset(items[..|items| - 1])
  {
    var n := |items| - 1;
    assert items[n] in multiset(permuted);
    k :| k < |permuted| && permuted[k] == items[n];
    SplitAt(permuted, k);
    SplitAt(items, n);
    assert Without(items, n) == items[..n];
    assert multiset(Without(permuted, k)) == multiset(permuted) - multiset{items[n]};
  }

  /** A permutation has a place for each item, and no place twice. */
  lemma {:induction false} PlacesInPermutation<T>(items: seq<T>, permuted: seq<T>) returns (places: seq<nat>)
    requires multiset(permuted) == multiset(items)
    ensures |places| == |items| == |permuted| && NoDups(places)
    ensures forall i :: 0 <= i < |places| ==> places[i] < |permuted| && permuted[places[i]] == items[i]
  {
    assert |multiset(permuted)| == |multiset(items)|;
    if items == [] {
      places := [];
    } else {
      var k := TakeLast(items, permuted);
      hide NoDups;
      var before := PlacesInPermutation(items[..|items| - 1], Without(permuted, k));
      hide Without;
      PlacePast(permuted, k, before);
      places := Mapped((i: nat) => Past(k, i), before) + [k];
    }
  }

  // ---- searching and filtering ------------------------------------------------------------------

  datatype Found<+T> = Absent | At(index: nat, item: T)

  function FirstThat<T>(p: T -> bool, s: seq<T>): (r: Found<T>)
    ensures r.Absent? <==> forall i :: 0 <= i < |s| ==> !p(s[i])
    ensures r.At? ==> r.index < |s| && r.item == s[r.index] && p(r.item) && forall i :: 0 <= i < r.index ==> !p(s[i])
  {
    if s == [] then Absent
    else
      var before := FirstThat(p, s[..|s| - 1]);
      if before.At? then before
      else if p(s[|s| - 1]) then At(|s| - 1, s[|s| - 1])
      else Absent
  }

  function LastThat<T>(p: T -> bool, s: seq<T>): (r: Found<T>)
    ensures r.Absent? <==> forall i :: 0 <= i < |s| ==> !p(s[i])
    ensures r.At? ==> r.index < |s| && r.item == s[r.index] && p(r.item) && forall i :: r.index < i < |s| ==> !p(s[i])
  {
    if s == [] then Absent
    else if p(s[|s| - 1]) then At(|s| - 1, s[|s| - 1])
    else LastThat(p, s[..|s| - 1])
  }

  function Filter<T(!new)>(p: T -> bool, s: seq<T>): (r: seq<T>)
    ensures forall x :: x in r <==> x in s && p(x)
  {
    if s == [] then []
    else
      assert s == s[..|s| - 1] + [s[|s| - 1]];
      Filter(p, s[..|s| - 1]) + if p(s[|s| - 1]) then [s[|s| - 1]] else []
  }

  lemma {:induction false} LastOfFilter<T(!new)>(p: T -> bool, s: seq<T>)
    ensures LastThat(p, s).Absent? <==> Filter(p, s) == []
    ensures LastThat(p, s).At? ==> LastThat(p, s).item == Filter(p, s)[|Filter(p, s)| - 1]
  {
    if s != [] && !p(s[|s| - 1]) {
      LastOfFilter(p, s[..|s| - 1]);
    }
  }

  lemma {:induction false} FilterCounts<T(!new)>(p: T -> bool, s: seq<T>)
    ensures forall x :: multiset(Filter(p, s))[x] == if p(x) then multiset(s)[x] else 0
  {
    if s != [] {
      FilterCounts(p, s[..|s| - 1]);
      assert s == s[..|s| - 1] + [s[|s| - 1]];
    }
  }

  lemma ShortPermutation<T>(a: seq<T>, b: seq<T>)
    requires multiset(a) == multiset(b) && |a| <= 1
    ensures a == b
  {
    assert |multiset(a)| == |multiset(b)|;
    if |a| == 1 {
      assert a[0] in multiset(b);
    }
  }

  /** A filter that keeps at most one item does not depend on the order of its input. */
  lemma FilterOfPermutation<T(!new)>(p: T -> bool, a: seq<T>, b: seq<T>)
    requires multiset(a) == multiset(b) && |Filter(p, a)| <= 1
    ensures Filter(p, a) == Filter(p, b)
  {
    var x, y := Filter(p, a), Filter(p, b);
    assert multiset(x) == multiset(y) by {
      FilterCounts(p, a);
      FilterCounts(p, b);
    }
    ShortPermutation(x, y);
  }

  /** Items with different keys still have different keys after filtering. */
  lemma {:induction false} FilterKeepsDistinct<T(!new), K>(key: T -> K, p: T -> bool, s: seq<T>)
    requires forall i, j :: 0 <= i < j < |s| ==> key(s[i]) != key(s[j])
    ensures forall i, j :: 0 <= i < j < |Filter(p, s)| ==> key(Filter(p, s)[i]) != key(Filter(p, s)[j])
  {
    if s != [] {
      var n := |s| - 1;
      var before := Filter(p, s[..n]);
      FilterKeepsDistinct(key, p, s[..n]);
      forall i | 0 <= i < |before| ensures key(before[i]) != key(s[n]) {
        assert before[i] in s[..n];
      }
    }
  }
}
