/** Exact arithmetic over columns of integers: the sum, minimum, maximum and mean
    pandas computes for a column, and the guarded percentage used for every rate. */
module Numbers {

  /** Sum of a column, folded from the left. */
  function SeqSum(xs: seq<int>): int
  {
    if xs == [] then 0 else SeqSum(xs[..|xs| - 1]) + xs[|xs| - 1]
  }

  /** The sum of the first k values adds the k-th value to the sum of the first k - 1. */
  lemma SeqSumStep(xs: seq<int>, k: nat)
    requires 0 < k <= |xs|
    ensures SeqSum(xs[..k]) == SeqSum(xs[..k - 1]) + xs[k - 1]
  {
    assert xs[..k][..k - 1] == xs[..k - 1];
  }

  /** Smallest value of a non-empty column: a lower bound that is attained. */
  function SeqMin(xs: seq<int>): (m: int)
    requires xs != []
    ensures forall i :: 0 <= i < |xs| ==> m <= xs[i]
    ensures exists i :: 0 <= i < |xs| && xs[i] == m
  {
    if |xs| == 1 then xs[0]
    else
      var prev := SeqMin(xs[..|xs| - 1]);
      assert forall i :: 0 <= i < |xs| - 1 ==> xs[..|xs| - 1][i] == xs[i];
      if xs[|xs| - 1] < prev then xs[|xs| - 1] else prev
  }

  /** Largest value of a non-empty column: an upper bound that is attained. */
  function SeqMax(xs: seq<int>): (m: int)
    requires xs != []
    ensures forall i :: 0 <= i < |xs| ==> xs[i] <= m
    ensures exists i :: 0 <= i < |xs| && xs[i] == m
  {
    if |xs| == 1 then xs[0]
    else
      var prev := SeqMax(xs[..|xs| - 1]);
      assert forall i :: 0 <= i < |xs| - 1 ==> xs[..|xs| - 1][i] == xs[i];
      if xs[|xs| - 1] > prev then xs[|xs| - 1] else prev
  }

  /** Arithmetic mean of a non-empty column, as an exact real. */
  function Mean(xs: seq<int>): real
    requires xs != []
  {
    (SeqSum(xs) as real) / (|xs| as real)
  }

  /** Bounds on every element bound the sum. */
  lemma {:induction false} SumBounds(xs: seq<int>, lo: int, hi: int)
    requires forall i :: 0 <= i < |xs| ==> lo <= xs[i] <= hi
    ensures |xs| * lo <= SeqSum(xs) <= |xs| * hi
  {
    if xs != [] {
      var prefix := xs[..|xs| - 1];
      assert forall i :: 0 <= i < |prefix| ==> prefix[i] == xs[i];
      SumBounds(prefix, lo, hi);
    }
  }

  /** A total of n values, each within [lo, hi], divided by n lies within [lo, hi]. */
  lemma QuotientBetween(total: real, n: real, lo: real, hi: real)
    requires n > 0.0
    requires n * lo <= total <= n * hi
    ensures lo <= total / n <= hi
  {
    assert total / n - lo == (total - n * lo) / n;
    assert hi - total / n == (n * hi - total) / n;
  }

  /** The mean of a non-empty column lies between any bounds of its elements. */
  lemma MeanBounds(xs: seq<int>, lo: int, hi: int)
    requires xs != []
    requires forall i :: 0 <= i < |xs| ==> lo <= xs[i] <= hi
    ensures lo as real <= Mean(xs) <= hi as real
  {
    SumBounds(xs, lo, hi);
    QuotientBetween(SeqSum(xs) as real, |xs| as real, lo as real, hi as real);
  }

  /** The mean of a non-empty column lies between its minimum and its maximum. */
  lemma MeanBetweenMinMax(xs: seq<int>)
    requires xs != []
    ensures SeqMin(xs) as real <= Mean(xs) <= SeqMax(xs) as real
  {
    MeanBounds(xs, SeqMin(xs), SeqMax(xs));
  }

  /** `count / (spanMs / 1000) if spanMs / 1000 > 0 else 0`: a count per second over
      a span given in milliseconds. */
  function PerSecond(count: nat, spanMs: int): (r: real)
    ensures r >= 0.0
    ensures spanMs <= 0 ==> r == 0.0
    ensures spanMs > 0 ==> r * (spanMs as real) == (count as real) * 1000.0
    ensures r > 0.0 <==> count > 0 && spanMs > 0
  {
    if spanMs > 0 then (count as real) / ((spanMs as real) / 1000.0) else 0.0
  }

  /** `part / whole * 100 if whole > 0 else 0`: the guarded percentage behind the
      error rates and the success rates. */
  function Percent(part: int, whole: int): (r: real)
    ensures whole <= 0 ==> r == 0.0
    ensures whole > 0 ==> r * (whole as real) == (part as real) * 100.0
    ensures 0 <= part <= whole ==> 0.0 <= r <= 100.0
  {
    if whole > 0 then (part as real) / (whole as real) * 100.0 else 0.0
  }

  /** The percentages of the two parts of a whole add up to 100. */
  lemma PercentsComplement(part: int, rest: int, whole: int)
    requires whole > 0 && part + rest == whole
    ensures Percent(part, whole) + Percent(rest, whole) == 100.0
  {
    var w := whole as real;
    var x, y := Percent(part, whole), Percent(rest, whole);
    assert (part as real) + (rest as real) == w;
    assert x * w == (part as real) * 100.0 && y * w == (rest as real) * 100.0;
    assert (x + y) * w == x * w + y * w;
    assert (part as real) * 100.0 + (rest as real) * 100.0 == w * 100.0;
    assert (x + y - 100.0) * w == 0.0;
  }
}
