/** Option and Result shapes and sums over lists, shared by every component. */
module Common {

  datatype Option<+T> = None | Some(value: T)

  datatype Result<+T, +E> = Ok(value: T) | Err(error: E)

  function Max(x: int, y: int): int {
    if x < y then y else x
  }

  function Min(x: int, y: int): int {
    if x < y then x else y
  }

  // ----- sums -----

  function Sum<T>(xs: seq<T>, f: T -> int): int {
    if xs == [] then 0 else Sum(xs[..|xs| - 1], f) + f(xs[|xs| - 1])
  }

  lemma SumPrefix<T>(xs: seq<T>, f: T -> int, i: nat)
    requires i < |xs|
    ensures Sum(xs[..i + 1], f) == Sum(xs[..i], f) + f(xs[i])
  {
    assert xs[..i + 1][..i] == xs[..i];
  }

  /** Lists whose elements have the same values have the same sum. */
  lemma {:induction false} SumPointwise<A, B>(xs: seq<A>, f: A -> int, ys: seq<B>, g: B -> int)
    requires |xs| == |ys| && forall i | 0 <= i < |xs| :: f(xs[i]) == g(ys[i])
    ensures Sum(xs, f) == Sum(ys, g)
  {
    if xs != [] {
      SumPointwise(xs[..|xs| - 1], f, ys[..|ys| - 1], g);
    }
  }

  /** A sum splits with its summand. */
  lemma {:induction false} SumSplits<T>(xs: seq<T>, f: T -> int, g: T -> int, h: T -> int)
    requires forall i | 0 <= i < |xs| :: f(xs[i]) == g(xs[i]) + h(xs[i])
    ensures Sum(xs, f) == Sum(xs, g) + Sum(xs, h)
  {
    if xs != [] {
      SumSplits(xs[..|xs| - 1], f, g, h);
    }
  }

  lemma {:induction false} SumConcat<T>(xs: seq<T>, ys: seq<T>, f: T -> int)
    ensures Sum(xs + ys, f) == Sum(xs, f) + Sum(ys, f)
  {
    if ys == [] {
      assert xs + ys == xs;
    } else {
      SumConcat(xs, ys[..|ys| - 1], f);
      assert (xs + ys)[..|xs + ys| - 1] == xs + ys[..|ys| - 1];
    }
  }

  /** A sum does not depend on the order of the list. */
  lemma {:induction false} SumPermutation<T>(xs: seq<T>, ys: seq<T>, f: T -> int)
    requires multiset(xs) == multiset(ys)
    ensures Sum(xs, f) == Sum(ys, f)
  {
    if xs == [] {
      assert |multiset(ys)| == |ys|;
      assert ys == [];
    } else {
      var front, last := xs[..|xs| - 1], xs[|xs| - 1];
      assert xs == front + [last];
      assert last in multiset(ys);
      var k: nat :| k < |ys| && ys[k] == last;
      var rest := ys[..k] + ys[k + 1..];
      assert ys == ys[..k] + [last] + ys[k + 1..];
      assert multiset(rest) == multiset(ys) - multiset([last]);
      SumPermutation(front, rest, f);
      SumConcat(ys[..k] + [last], ys[k + 1..], f);
      SumConcat(ys[..k], [last], f);
      SumConcat(ys[..k], ys[k + 1..], f);
    }
  }

  // ----- counts -----

  /** xs.filter(p).length */
  function Count<T>(xs: seq<T>, p: T -> bool): nat {
    if xs == [] then 0 else Count(xs[..|xs| - 1], p) + if p(xs[|xs| - 1]) then 1 else 0
  }

  lemma {:induction false} CountIsSum<A, B>(xs: seq<A>, p: A -> bool, ys: seq<B>, f: B -> int)
    requires |xs| == |ys| && forall i | 0 <= i < |xs| :: f(ys[i]) == if p(xs[i]) then 1 else 0
    ensures Count(xs, p) == Sum(ys, f)
  {
    if xs != [] {
      CountIsSum(xs[..|xs| - 1], p, ys[..|ys| - 1], f);
    }
  }

  /** A count is the length exactly when every element counts, and zero exactly when none does. */
  lemma {:induction false} CountExtremes<T>(xs: seq<T>, p: T -> bool)
    ensures Count(xs, p) <= |xs|
    ensures Count(xs, p) == |xs| <==> forall i | 0 <= i < |xs| :: p(xs[i])
    ensures Count(xs, p) == 0 <==> forall i | 0 <= i < |xs| :: !p(xs[i])
  {
    if xs != [] {
      var front := xs[..|xs| - 1];
      CountExtremes(front, p);
      assert forall i | 0 <= i < |front| :: front[i] == xs[i];
    }
  }
}
