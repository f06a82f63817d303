/**
 * Sums as the source computes them with `xs.reduce((sum, x) => sum + x, 0)`:
 * a left fold with an accumulator, related here to the plain recursive sum.
 */
module Folds {

  function Sum(xs: seq<int>): int
  {
    if xs == [] then 0 else xs[0] + Sum(xs[1..])
  }

  /** JavaScript's `reduce` with `+`, starting from `acc`. */
  function FoldSum(acc: int, xs: seq<int>): int
    decreases xs
  {
    if xs == [] then acc else FoldSum(acc + xs[0], xs[1..])
  }

  lemma {:induction false} FoldSumIsSum(acc: int, xs: seq<int>)
    ensures FoldSum(acc, xs) == acc + Sum(xs)
    decreases xs
  {
    if xs != [] {
      FoldSumIsSum(acc + xs[0], xs[1..]);
    }
  }

  lemma {:induction false} SumAppend(a: seq<int>, b: seq<int>)
    ensures Sum(a + b) == Sum(a) + Sum(b)
  {
    if a != [] {
      assert (a + b)[1..] == a[1..] + b;
      SumAppend(a[1..], b);
    } else {
      assert a + b == b;
    }
  }

  lemma {:induction false} SumNonNegative(xs: seq<int>)
    requires forall i :: 0 <= i < |xs| ==> xs[i] >= 0
    ensures Sum(xs) >= 0
  {
    if xs != [] {
      SumNonNegative(xs[1..]);
    }
  }
}
