/**
 * Counting the records of a batch that satisfy a condition: the model of
 * pandas' boolean-mask `.sum()` and `value_counts().get(label, 0)`.
 */
module Counting {

  /** Number of elements of `xs` satisfying `p`, counted from the back. */
  function Count<T>(xs: seq<T>, p: T -> bool): (n: nat)
    ensures n <= |xs|
  {
    if xs == [] then 0
    else Count(xs[..|xs| - 1], p) + (if p(xs[|xs| - 1]) then 1 else 0)
  }

  /** Reference definition: the positions of `xs` whose element satisfies `p`. */
  function Matching<T>(xs: seq<T>, p: T -> bool): set<nat> {
    set i: nat | i < |xs| && p(xs[i])
  }

  /** `Count` is the number of matching positions. */
  lemma {:induction false} CountIsCardinality<T>(xs: seq<T>, p: T -> bool)
    ensures Count(xs, p) == |Matching(xs, p)|
  {
    if xs == [] {
      assert Matching(xs, p) == {};
    } else {
      var last := |xs| - 1;
      var init := xs[..last];
      CountIsCardinality(init, p);
      assert Matching(xs, p) == Matching(init, p) + (if p(xs[last]) then {last} else {});
    }
  }

  /** Counting two batches one after the other adds their counts. */
  lemma {:induction false} CountAppend<T>(xs: seq<T>, ys: seq<T>, p: T -> bool)
    ensures Count(xs + ys, p) == Count(xs, p) + Count(ys, p)
  {
    if ys == [] {
      assert xs + ys == xs;
    } else {
      var init := ys[..|ys| - 1];
      CountAppend(xs, init, p);
      assert (xs + ys)[..|xs + ys| - 1] == xs + init;
    }
  }

  /** `n` copies of `x`. */
  function Repeat<T>(x: T, n: nat): (r: seq<T>)
    ensures |r| == n
  {
    seq(n, _ => x)
  }

  lemma {:induction false} CountRepeat<T>(x: T, n: nat, p: T -> bool)
    ensures Count(Repeat(x, n), p) == if p(x) then n else 0
  {
    if n > 0 {
      CountRepeat(x, n - 1, p);
      assert Repeat(x, n)[..n - 1] == Repeat(x, n - 1);
    }
  }

  /** Some element matches exactly when the count is positive. */
  lemma CountPositiveIff<T>(xs: seq<T>, p: T -> bool)
    ensures Count(xs, p) > 0 <==> exists i :: 0 <= i < |xs| && p(xs[i])
  {
    CountIsCardinality(xs, p);
    if i :| 0 <= i < |xs| && p(xs[i]) {
      assert i in Matching(xs, p);
    }
    if Count(xs, p) > 0 {
      var i :| i in Matching(xs, p);
    }
  }
}
