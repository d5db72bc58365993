/** Sum, mean, minimum and maximum of a series of readings, as computed by
    `statistics.mean`, `min`, `max` and a pandas column `mean()` (taken over
    exact reals). */
module Stats {

  function Sum(xs: seq<real>): real
  {
    if xs == [] then 0.0 else xs[0] + Sum(xs[1..])
  }

  /** Adding one more reading at the end adds it to the sum: the running
      total kept by a sampling loop is the sum of what it has appended. */
  lemma {:induction false} SumAppend(xs: seq<real>, x: real)
    ensures Sum(xs + [x]) == Sum(xs) + x
  {
    if xs != [] {
      assert (xs + [x])[1..] == xs[1..] + [x];
      SumAppend(xs[1..], x);
    }
  }

  /** The smallest reading; it is one of the readings. */
  function Min(xs: seq<real>): (m: real)
    requires xs != []
    ensures m in xs
    ensures forall i :: 0 <= i < |xs| ==> m <= xs[i]
  {
    if |xs| == 1 then xs[0] else
      var rest := Min(xs[1..]);
      if xs[0] <= rest then xs[0] else rest
  }

  /** The largest reading; it is one of the readings. */
  function Max(xs: seq<real>): (m: real)
    requires xs != []
    ensures m in xs
    ensures forall i :: 0 <= i < |xs| ==> xs[i] <= m
  {
    if |xs| == 1 then xs[0] else
      var rest := Max(xs[1..]);
      if xs[0] >= rest then xs[0] else rest
  }

  /** A sum of readings all at least `lo` (at most `hi`) is at least
      (at most) that many copies of `lo` (`hi`). */
  lemma {:induction false} SumBounds(xs: seq<real>, lo: real, hi: real)
    requires forall i :: 0 <= i < |xs| ==> lo <= xs[i] <= hi
    ensures |xs| as real * lo <= Sum(xs) <= |xs| as real * hi
  {
    if xs != [] {
      SumBounds(xs[1..], lo, hi);
      assert |xs| as real * lo == lo + (|xs| - 1) as real * lo;
      assert |xs| as real * hi == hi + (|xs| - 1) as real * hi;
    }
  }

  /** Dividing bounds on a total by a positive count bounds the quotient. */
  lemma DivideBounds(lo: real, total: real, hi: real, n: real)
    requires n > 0.0 && n * lo <= total <= n * hi
    ensures lo <= total / n <= hi
  {
    var q := total / n;
    assert (q - lo) * n == total - n * lo;
    assert (hi - q) * n == n * hi - total;
  }

  /** The arithmetic mean of a non-empty series; it lies between the
      smallest and the largest reading. */
  function Mean(xs: seq<real>): (m: real)
    requires xs != []
    ensures Min(xs) <= m <= Max(xs)
  {
    MeanBounds(xs);
    Sum(xs) / |xs| as real
  }

  lemma MeanBounds(xs: seq<real>)
    requires xs != []
    ensures Min(xs) <= Sum(xs) / |xs| as real <= Max(xs)
  {
    QuotientWithin(xs, Min(xs), Max(xs));
  }

  /** Readings all within `[lo, hi]` have their quotient of sum by count
      within the same bounds. */
  lemma QuotientWithin(xs: seq<real>, lo: real, hi: real)
    requires xs != []
    requires forall i :: 0 <= i < |xs| ==> lo <= xs[i] <= hi
    ensures lo <= Sum(xs) / |xs| as real <= hi
  {
    SumBounds(xs, lo, hi);
    DivideBounds(lo, Sum(xs), hi, |xs| as real);
  }

  /** A series of `n` equal readings sums to `n` copies of the reading. */
  lemma {:induction false} SumConstant(xs: seq<real>, v: real)
    requires forall i :: 0 <= i < |xs| ==> xs[i] == v
    ensures Sum(xs) == |xs| as real * v
  {
    SumBounds(xs, v, v);
  }

  /** The mean of a series whose readings are all `v` is `v`. */
  lemma MeanConstant(xs: seq<real>, v: real)
    requires xs != []
    requires forall i :: 0 <= i < |xs| ==> xs[i] == v
    ensures Mean(xs) == v && Min(xs) == v && Max(xs) == v
  {
    SumConstant(xs, v);
  }
}
