/**
  Library sorting.  JavaScript's Array.prototype.sort and Python's sorted are
  stable sorts by a comparison; this is that specification, by insertion, with
  the facts the components rely on.
*/
module StableSorting {

  ghost predicate TotalPreorder<T(!new)>(le: (T, T) -> bool) {
    && (forall a, b :: le(a, b) || le(b, a))
    && (forall a, b, c :: le(a, b) && le(b, c) ==> le(a, c))
  }

  function Insert<T>(x: T, ys: seq<T>, le: (T, T) -> bool): seq<T> {
    if ys == [] || le(x, ys[0]) then [x] + ys
    else [ys[0]] + Insert(x, ys[1..], le)
  }

  function Sort<T>(xs: seq<T>, le: (T, T) -> bool): seq<T> {
    if xs == [] then [] else Insert(xs[0], Sort(xs[1..], le), le)
  }

  ghost predicate Ordered<T>(xs: seq<T>, le: (T, T) -> bool) {
    forall i, j | 0 <= i < j < |xs| :: le(xs[i], xs[j])
  }

  lemma {:induction false} InsertIsPermutation<T>(x: T, ys: seq<T>, le: (T, T) -> bool)
    ensures multiset(Insert(x, ys, le)) == multiset([x] + ys)
  {
    if !(ys == [] || le(x, ys[0])) {
      InsertIsPermutation(x, ys[1..], le);
      assert ys == [ys[0]] + ys[1..];
    }
  }

  lemma {:induction false} SortIsPermutation<T>(xs: seq<T>, le: (T, T) -> bool)
    ensures multiset(Sort(xs, le)) == multiset(xs)
    ensures |Sort(xs, le)| == |xs|
  {
    if xs != [] {
      SortIsPermutation(xs[1..], le);
      InsertIsPermutation(xs[0], Sort(xs[1..], le), le);
      assert xs == [xs[0]] + xs[1..];
    }
    assert |multiset(Sort(xs, le))| == |Sort(xs, le)| && |multiset(xs)| == |xs|;
  }

  lemma SameMembers<T>(xs: seq<T>, le: (T, T) -> bool)
    ensures forall x :: x in Sort(xs, le) <==> x in xs
  {
    SortIsPermutation(xs, le);
    forall x ensures x in Sort(xs, le) <==> x in xs {
      assert x in multiset(Sort(xs, le)) <==> x in multiset(xs);
    }
  }

  lemma {:induction false} InsertKeepsOrder<T(!new)>(x: T, ys: seq<T>, le: (T, T) -> bool)
    requires TotalPreorder(le) && Ordered(ys, le)
    ensures Ordered(Insert(x, ys, le), le)
  {
    if ys == [] {
    } else if le(x, ys[0]) {
      assert forall j | 0 < j < |ys| :: le(ys[0], ys[j]);
    } else {
      InsertKeepsOrder(x, ys[1..], le);
      InsertIsPermutation(x, ys[1..], le);
      var rest := Insert(x, ys[1..], le);
      forall j | 0 <= j < |rest| ensures le(ys[0], rest[j]) {
        assert rest[j] in multiset([x] + ys[1..]);
        if rest[j] != x {
          assert rest[j] in ys[1..];
        }
      }
    }
  }

  lemma {:induction false} SortIsOrdered<T(!new)>(xs: seq<T>, le: (T, T) -> bool)
    requires TotalPreorder(le)
    ensures Ordered(Sort(xs, le), le)
  {
    if xs != [] {
      SortIsOrdered(xs[1..], le);
      InsertKeepsOrder(xs[0], Sort(xs[1..], le), le);
    }
  }

  // ----- stability -----

  predicate Tied<T>(y: T, le: (T, T) -> bool, pivot: T) {
    le(y, pivot) && le(pivot, y)
  }

  /** The elements that tie with pivot, in order. */
  function Ties<T>(xs: seq<T>, le: (T, T) -> bool, pivot: T): seq<T> {
    if xs == [] then [] else (if Tied(xs[0], le, pivot) then [xs[0]] else []) + Ties(xs[1..], le, pivot)
  }

  /** Elements that tie keep their order. */
  lemma {:induction false} SortIsStable<T(!new)>(xs: seq<T>, le: (T, T) -> bool, pivot: T)
    requires TotalPreorder(le)
    ensures Ties(Sort(xs, le), le, pivot) == Ties(xs, le, pivot)
  {
    if xs != [] {
      SortIsStable(xs[1..], le, pivot);
      TiedAreLe(xs[0], le, pivot);
      InsertIsStable(xs[0], Sort(xs[1..], le), le, pivot);
    }
  }

  lemma TiedAreLe<T(!new)>(x: T, le: (T, T) -> bool, pivot: T)
    requires TotalPreorder(le)
    ensures forall y | Tied(x, le, pivot) && Tied(y, le, pivot) :: le(x, y)
  {
  }

  lemma {:induction false} InsertIsStable<T(!new)>(x: T, ys: seq<T>, le: (T, T) -> bool, pivot: T)
    requires forall y | Tied(x, le, pivot) && Tied(y, le, pivot) :: le(x, y)
    ensures Ties(Insert(x, ys, le), le, pivot) == (if Tied(x, le, pivot) then [x] else []) + Ties(ys, le, pivot)
  {
    if ys == [] || le(x, ys[0]) {
      assert ([x] + ys)[1..] == ys;
    } else {
      InsertIsStable(x, ys[1..], le, pivot);
      assert Insert(x, ys, le)[1..] == Insert(x, ys[1..], le);
      assert !(Tied(x, le, pivot) && Tied(ys[0], le, pivot));
    }
  }

  // ----- sorting distinct elements -----

  ghost predicate Apart<T>(xs: seq<T>, same: (T, T) -> bool) {
    forall i, j | 0 <= i < j < |xs| :: !same(xs[i], xs[j])
  }

  lemma {:induction false} InsertKeepsApart<T(!new)>(x: T, ys: seq<T>, le: (T, T) -> bool, same: (T, T) -> bool)
    requires forall a, b :: same(a, b) ==> same(b, a)
    requires Apart([x] + ys, same)
    ensures Apart(Insert(x, ys, le), same)
  {
    if ys != [] && !le(x, ys[0]) {
      var rest := Insert(x, ys[1..], le);
      assert forall i | 0 <= i < |[x] + ys[1..]| :: ([x] + ys[1..])[i] == ([x] + ys)[if i == 0 then 0 else i + 1];
      InsertKeepsApart(x, ys[1..], le, same);
      InsertIsPermutation(x, ys[1..], le);
      forall j | 0 <= j < |rest| ensures !same(ys[0], rest[j]) {
        assert rest[j] in multiset([x] + ys[1..]);
        assert ([x] + ys)[0] == x && ([x] + ys)[1] == ys[0];
        if rest[j] != x {
          var k :| 0 <= k < |ys[1..]| && ys[1..][k] == rest[j];
          assert ([x] + ys)[k + 2] == rest[j];
        }
      }
    }
  }

  /** Elements pairwise apart stay so. */
  lemma {:induction false} SortKeepsApart<T(!new)>(xs: seq<T>, le: (T, T) -> bool, same: (T, T) -> bool)
    requires forall a, b :: same(a, b) ==> same(b, a)
    requires Apart(xs, same)
    ensures Apart(Sort(xs, le), same)
  {
    if xs != [] {
      SortKeepsApart(xs[1..], le, same);
      InsertApart(xs[0], xs[1..], le, same);
    }
  }

  lemma InsertApart<T(!new)>(x: T, tail: seq<T>, le: (T, T) -> bool, same: (T, T) -> bool)
    requires forall a, b :: same(a, b) ==> same(b, a)
    requires Apart([x] + tail, same) && Apart(Sort(tail, le), same)
    ensures Apart(Insert(x, Sort(tail, le), le), same)
  {
    var sorted := Sort(tail, le);
    SameMembers(tail, le);
    forall j | 0 <= j < |sorted| ensures !same(x, sorted[j]) {
      assert sorted[j] in tail;
      var k :| 0 <= k < |tail| && tail[k] == sorted[j];
      assert ([x] + tail)[0] == x && ([x] + tail)[k + 1] == sorted[j];
    }
    InsertKeepsApart(x, sorted, le, same);
  }

  // ----- sorting related lists -----

  ghost predicate Pointwise<A(!new), B(!new)>(xs: seq<A>, ys: seq<B>, rel: (A, B) -> bool) {
    |xs| == |ys| && forall i | 0 <= i < |xs| :: rel(xs[i], ys[i])
  }

  /** Sorting two pointwise related lists keeps them pointwise related when the comparisons agree. */
  lemma {:induction false} SortCorresponds<A(!new), B(!new)>(
    xs: seq<A>, ys: seq<B>, leA: (A, A) -> bool, leB: (B, B) -> bool, rel: (A, B) -> bool)
    requires Pointwise(xs, ys, rel)
    requires forall a, b, a', b' :: rel(a, b) && rel(a', b') ==> leA(a, a') == leB(b, b')
    ensures Pointwise(Sort(xs, leA), Sort(ys, leB), rel)
  {
    if xs != [] {
      SortCorresponds(xs[1..], ys[1..], leA, leB, rel);
      InsertCorresponds(xs[0], ys[0], Sort(xs[1..], leA), Sort(ys[1..], leB), leA, leB, rel);
    }
  }

  lemma {:induction false} InsertCorresponds<A(!new), B(!new)>(
    x: A, y: B, xs: seq<A>, ys: seq<B>, leA: (A, A) -> bool, leB: (B, B) -> bool, rel: (A, B) -> bool)
    requires rel(x, y) && Pointwise(xs, ys, rel)
    requires forall a, b, a', b' :: rel(a, b) && rel(a', b') ==> leA(a, a') == leB(b, b')
    ensures Pointwise(Insert(x, xs, leA), Insert(y, ys, leB), rel)
  {
    if xs != [] {
      assert rel(xs[0], ys[0]);
      if !leA(x, xs[0]) {
        InsertCorresponds(x, y, xs[1..], ys[1..], leA, leB, rel);
      }
    }
  }
}
