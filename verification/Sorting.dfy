/** The order of GenerateTestCases' responses: the comparator, and what slices.SortFunc makes of it. */
module Sorting {
  import opened GoInt

  datatype TestCaseResponse = TestCaseResponse(id: string, order: int32, input: string, output: string)

  type Responses = seq<TestCaseResponse>

  // ---- the comparator -----------------------------------------------------------------------------

  /** The comparator's int(a.Order - b.Order): the subtraction is an int32 one. */
  function Compare(a: TestCaseResponse, b: TestCaseResponse): int32 {
    Sub32(a.order, b.order)
  }

  predicate Less(a: TestCaseResponse, b: TestCaseResponse) { Compare(a, b) < 0 }

  predicate Fit(a: TestCaseResponse, b: TestCaseResponse) {
    -0x8000_0000 <= a.order - b.order < 0x8000_0000
  }

  lemma LessOf(a: TestCaseResponse, b: TestCaseResponse)
    ensures Less(a, b) <==> -0x8000_0000 <= a.order - b.order < 0 || a.order - b.order >= 0x8000_0000
  {
  }

  ghost predicate AllFit(rs: Responses) {
    forall a, b :: a in rs && b in rs ==> Fit(a, b)
  }

  predicate Ordered(rs: Responses) {
    forall i, j :: 0 <= i < j < |rs| ==> rs[i].order <= rs[j].order
  }

  // ---- slices.SortFunc ----------------------------------------------------------------------------

  /** What slices.SortFunc asks of a comparator. */
  ghost predicate StrictWeakOrder(rs: Responses) {
    && (forall a, b :: a in rs && b in rs ==> !(Less(a, b) && Less(b, a)))
    && (forall a, b, c :: a in rs && b in rs && c in rs && Less(a, b) && Less(b, c) ==> Less(a, c))
    && (forall a, b, c :: a in rs && b in rs && c in rs && Tied(a, b) && Tied(b, c) ==> Tied(a, c))
  }

  predicate Tied(a: TestCaseResponse, b: TestCaseResponse) { !Less(a, b) && !Less(b, a) }

  /** Go's slices package sorts up to this many elements by insertion. */
  const MAX_INSERTION := 12

  /** The inner loop of insertionSortCmpFunc: x moves left past every element it compares below. */
  function Insert(s: Responses, x: TestCaseResponse): (r: Responses)
    ensures |r| == |s| + 1
  {
    var n := |s|;
    if n == 0 || !Less(x, s[n - 1]) then s + [x] else Insert(s[..n - 1], x) + [s[n - 1]]
  }

  function InsertionSort(rs: Responses): (r: Responses)
    ensures |r| == |rs|
  {
    if rs == [] then [] else Insert(InsertionSort(rs[..|rs| - 1]), rs[|rs| - 1])
  }

  lemma {:induction false} InsertPermutes(s: Responses, x: TestCaseResponse)
    ensures multiset(Insert(s, x)) == multiset(s) + multiset{x}
  {
    hide Less;
    var n := |s|;
    if n > 0 && Less(x, s[n - 1]) {
      InsertPermutes(s[..n - 1], x);
      assert s == s[..n - 1] + [s[n - 1]];
    }
  }

  lemma {:induction false} InsertionSortPermutes(rs: Responses)
    ensures multiset(InsertionSort(rs)) == multiset(rs)
  {
    hide Insert;
    if rs != [] {
      var n := |rs| - 1;
      InsertionSortPermutes(rs[..n]);
      InsertPermutes(InsertionSort(rs[..n]), rs[n]);
      assert rs == rs[..n] + [rs[n]];
    }
  }

  /** What slices.SortFunc promises of longer lists: a permutation, sorted if the comparator is what it asks for. */
  ghost predicate Promise(long: Responses -> Responses) {
    forall rs ::
      && multiset(long(rs)) == multiset(rs)
      && (StrictWeakOrder(rs) ==> forall i, j :: 0 <= i < j < |long(rs)| ==> !Less(long(rs)[j], long(rs)[i]))
  }

  function SortFunc(long: Responses -> Responses, rs: Responses): Responses {
    if |rs| <= MAX_INSERTION then InsertionSort(rs) else long(rs)
  }

  // ---- when all differences fit -------------------------------------------------------------------

  lemma FitIsStrictWeakOrder(rs: Responses)
    requires AllFit(rs)
    ensures StrictWeakOrder(rs)
    ensures forall a, b :: a in rs && b in rs ==> (Less(a, b) <==> a.order < b.order)
  {
    hide Less;
    forall a, b | a in rs && b in rs ensures Less(a, b) <==> a.order < b.order { LessOf(a, b); }
  }

  lemma {:induction false} InsertIsOrdered(s: Responses, x: TestCaseResponse)
    requires Ordered(s) && forall a :: a in s ==> Fit(x, a)
    ensures Ordered(Insert(s, x))
  {
    hide Less;
    var n := |s|;
    if n > 0 {
      LessOf(x, s[n - 1]);
      assert Fit(x, s[n - 1]);
      if Less(x, s[n - 1]) {
        InsertIsOrdered(s[..n - 1], x);
        var r := Insert(s[..n - 1], x);
        InsertPermutes(s[..n - 1], x);
        forall i | 0 <= i < |r| ensures r[i].order <= s[n - 1].order {
          assert r[i] in multiset(s[..n - 1]) + multiset{x};
          assert r[i] in s[..n - 1] || r[i] == x;
        }
      }
    }
  }

  lemma {:induction false} InsertionSortIsOrdered(rs: Responses)
    requires AllFit(rs)
    ensures Ordered(InsertionSort(rs))
  {
    if rs != [] {
      var n := |rs| - 1;
      InsertionSortIsOrdered(rs[..n]);
      InsertionSortPermutes(rs[..n]);
      forall a | a in InsertionSort(rs[..n]) ensures Fit(rs[n], a) {
        assert a in multiset(rs[..n]);
        assert a in rs;
      }
      InsertIsOrdered(InsertionSort(rs[..n]), rs[n]);
    }
  }

  /** When all differences fit in int32, the sorted list is a permutation in the order of Order, however long it is. */
  lemma SortedIsOrdered(long: Responses -> Responses, rs: Responses)
    requires Promise(long)
    ensures multiset(SortFunc(long, rs)) == multiset(rs)
    ensures AllFit(rs) ==> Ordered(SortFunc(long, rs))
  {
    hide Less, StrictWeakOrder;
    if |rs| <= MAX_INSERTION {
      InsertionSortPermutes(rs);
      if AllFit(rs) { InsertionSortIsOrdered(rs); }
    } else {
      var sorted := long(rs);
      assert |multiset(sorted)| == |multiset(rs)|;
      if AllFit(rs) {
        FitIsStrictWeakOrder(rs);
        forall i, j | 0 <= i < j < |sorted| ensures sorted[i].order <= sorted[j].order {
          assert sorted[i] in multiset(rs) && sorted[j] in multiset(rs);
          assert !Less(sorted[j], sorted[i]);
        }
      }
    }
  }

  // ---- when they do not ---------------------------------------------------------------------------

  /** Two elements that are out of order stay so, whatever is inserted. */
  lemma {:induction false} InsertKeepsInversion(s: Responses, x: TestCaseResponse, i: nat, j: nat)
    returns (i2: nat, j2: nat)
    requires i < j < |s|
    ensures i2 < j2 < |Insert(s, x)| && Insert(s, x)[i2] == s[i] && Insert(s, x)[j2] == s[j]
  {
    var n := |s|;
    if !Less(x, s[n - 1]) {
      i2, j2 := i, j;
    } else if j == n - 1 {
      i2 := InsertKeepsElement(s[..n - 1], x, i);
      j2 := n;
    } else {
      i2, j2 := InsertKeepsInversion(s[..n - 1], x, i, j);
    }
  }

  lemma {:induction false} InsertKeepsElement(s: Responses, x: TestCaseResponse, i: nat) returns (i2: nat)
    requires i < |s|
    ensures i2 < |Insert(s, x)| && Insert(s, x)[i2] == s[i]
  {
    var n := |s|;
    if !Less(x, s[n - 1]) {
      i2 := i;
    } else if i == n - 1 {
      i2 := n;
    } else {
      i2 := InsertKeepsElement(s[..n - 1], x, i);
    }
  }

  lemma SortOfTwo(x: TestCaseResponse, y: TestCaseResponse)
    ensures InsertionSort([x, y]) == if Less(y, x) then [y, x] else [x, y]
  {
    hide Less;
    assert [x, y][..1] == [x] && [x][..0] == [];
    assert InsertionSort([x]) == Insert(InsertionSort([]), x) == [x];
    assert Insert([x], y) == if Less(y, x) then Insert([], y) + [x] else [x] + [y];
  }

  /** When the larger of two that do not fit arrives right after the smaller, it goes first and stays there. */
  lemma {:induction false} ArrivalInverts(rs: Responses) returns (i: nat, j: nat)
    requires |rs| >= 2 && rs[1].order - rs[0].order >= 0x8000_0000
    ensures i < j < |InsertionSort(rs)| && InsertionSort(rs)[i] == rs[1] && InsertionSort(rs)[j] == rs[0]
  {
    hide Insert, Less;
    var n := |rs| - 1;
    if n == 1 {
      LessOf(rs[1], rs[0]);
      SortOfTwo(rs[0], rs[1]);
      assert rs == [rs[0], rs[1]];
      i, j := 0, 1;
    } else {
      i, j := ArrivalInverts(rs[..n]);
      i, j := InsertKeepsInversion(InsertionSort(rs[..n]), rs[n], i, j);
    }
  }

  /** The list that has a and then b in front. */
  function Fronted(rs: Responses, i: nat, j: nat): Responses
    requires i < j < |rs|
  {
    [rs[i], rs[j]] + rs[..i] + rs[i + 1..j] + rs[j + 1..]
  }

  lemma FrontedPermutes(rs: Responses, i: nat, j: nat)
    requires i < j < |rs|
    ensures multiset(Fronted(rs, i, j)) == multiset([rs[j], rs[i]] + Fronted(rs, i, j)[2..]) == multiset(rs)
  {
    assert rs == rs[..i] + [rs[i]] + rs[i + 1..j] + [rs[j]] + rs[j + 1..];
    assert Fronted(rs, i, j)[2..] == rs[..i] + rs[i + 1..j] + rs[j + 1..];
  }

  /**
   * The list comes out ordered for every order of completion if and only if all pairwise differences fit in int32. A
   * single order of completion can be lucky: see LuckyArrival.
   */
  lemma OrderedForEveryArrivalIff(rs: Responses)
    ensures (forall p :: multiset(p) == multiset(rs) ==> Ordered(InsertionSort(p))) <==> AllFit(rs)
  {
    hide InsertionSort, Fit;
    if AllFit(rs) {
      forall p | multiset(p) == multiset(rs) ensures Ordered(InsertionSort(p)) {
        assert forall a :: a in p ==> a in multiset(rs);
        InsertionSortIsOrdered(p);
      }
    } else {
      var p := UnluckyArrival(rs);
    }
  }

  lemma UnluckyArrival(rs: Responses) returns (p: Responses)
    requires !AllFit(rs)
    ensures multiset(p) == multiset(rs) && !Ordered(InsertionSort(p))
  {
    hide InsertionSort;
    var a, b :| a in rs && b in rs && !Fit(a, b);
    var i :| 0 <= i < |rs| && rs[i] == a;
    var j :| 0 <= j < |rs| && rs[j] == b;
    var (k, l) := if i < j then (i, j) else (j, i);
    FrontedPermutes(rs, k, l);
    var rest := Fronted(rs, k, l)[2..];
    p := if rs[k].order < rs[l].order then [rs[k], rs[l]] + rest else [rs[l], rs[k]] + rest;
    assert Fronted(rs, k, l) == [rs[k], rs[l]] + rest;
    var x, y := ArrivalInverts(p);
  }

  /** For two responses exactly: y, arriving after x, must not be too far above it, nor 2^31 or more below. */
  lemma TwoResponses(x: TestCaseResponse, y: TestCaseResponse)
    ensures Ordered(InsertionSort([x, y])) <==> Fit(y, x)
  {
    hide InsertionSort, Less;
    LessOf(y, x);
    SortOfTwo(x, y);
    var r := InsertionSort([x, y]);
    assert Ordered(r) <==> r[0].order <= r[1].order;
  }

  /** Three orders that the comparator puts in a circle come back ordered if that is how they arrive. */
  lemma LuckyArrival(a: TestCaseResponse, b: TestCaseResponse, c: TestCaseResponse)
    requires a.order == -1_500_000_000 && b.order == 0 && c.order == 1_500_000_000
    ensures InsertionSort([a, b, c]) == [a, b, c] && Ordered([a, b, c]) && !AllFit([a, b, c])
    ensures !StrictWeakOrder([a, b, c])
  {
    LessOf(a, b); LessOf(b, a); LessOf(b, c); LessOf(c, b); LessOf(a, c); LessOf(c, a);
    hide Less;
    SortOfTwo(a, b);
    assert InsertionSort([a, b, c]) == Insert([a, b], c) by { assert [a, b, c][..2] == [a, b]; }
    hide InsertionSort;
    assert a in [a, b, c] && b in [a, b, c];
    assert a in [a, b, c] && c in [a, b, c] && !Fit(a, c);
  }

  // ---- in place -----------------------------------------------------------------------------------

  lemma {:induction false} InsertAt(s: Responses, x: TestCaseResponse, j: nat)
    requires j <= |s| && (j > 0 ==> !Less(x, s[j - 1]))
    requires forall k :: j <= k < |s| ==> Less(x, s[k])
    ensures Insert(s, x) == s[..j] + [x] + s[j..]
  {
    hide Less;
    var n := |s|;
    if j < n {
      var t := s[..n - 1];
      InsertAt(t, x, j);
      assert t[..j] == s[..j];
      assert s[j..] == t[j..] + [s[n - 1]];
    } else {
      assert s[..j] == s && s[j..] == [];
    }
  }

  /** What the loop below has done when it stops at j: the case of place i has moved there, past larger ones. */
  lemma InsertedAt(was: Responses, now: Responses, i: nat, j: nat)
    requires j <= i < |was| == |now|
    requires now[j] == was[i] && (j > 0 ==> !Less(was[i], was[j - 1]))
    requires forall k :: 0 <= k < j ==> now[k] == was[k]
    requires forall k :: j < k <= i ==> now[k] == was[k - 1]
    requires forall k :: i < k < |was| ==> now[k] == was[k]
    requires forall k :: j <= k < i ==> Less(was[i], was[k])
    ensures now[..i + 1] == Insert(was[..i], was[i]) && now[i + 1..] == was[i + 1..]
  {
    hide Less, Insert;
    var s := was[..i];
    InsertAt(s, was[i], j);
    assert now[..i + 1] == s[..j] + [was[i]] + s[j..];
  }

  /** The inner loop of insertionSortCmpFunc, in place. */
  method InsertInPlace(data: array<TestCaseResponse>, i: nat)
    requires i < data.Length
    modifies data
    ensures data[..i + 1] == Insert(old(data[..i]), old(data[i])) && data[i + 1..] == old(data[i + 1..])
  {
    hide Less;
    var j := i;
    while j > 0 && Less(data[j], data[j - 1])
      invariant 0 <= j <= i
      invariant data[j] == old(data[i])
      invariant forall k :: 0 <= k < j ==> data[k] == old(data[k])
      invariant forall k :: j < k <= i ==> data[k] == old(data[k - 1])
      invariant forall k :: i < k < data.Length ==> data[k] == old(data[k])
      invariant forall k :: j <= k < i ==> Less(old(data[i]), old(data[k]))
    {
      data[j], data[j - 1] := data[j - 1], data[j];
      j := j - 1;
    }
    InsertedAt(old(data[..]), data[..], i, j);
    assert data[..][..i + 1] == data[..i + 1] && data[..][i + 1..] == data[i + 1..];
    assert old(data[..])[..i] == old(data[..i]) && old(data[..])[i + 1..] == old(data[i + 1..]);
  }

  /** insertionSortCmpFunc, in place. */
  method InsertionSortInPlace(data: array<TestCaseResponse>)
    modifies data
    ensures data[..] == InsertionSort(old(data[..]))
  {
    ghost var was := data[..];
    for i := 0 to data.Length
      invariant data[..i] == InsertionSort(was[..i])
      invariant data[i..] == was[i..]
    {
      assert data[i] == data[i..][0] == was[i] && data[i..][1..] == data[i + 1..] && was[i..][1..] == was[i + 1..];
      assert was[..i + 1][..i] == was[..i];
      InsertInPlace(data, i);
    }
    assert data[..data.Length] == data[..] && was[..data.Length] == was;
  }
}
