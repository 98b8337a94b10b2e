/** Reference definitions of the aggregates a benchmark summary reports over
    a sequence of integer samples (sum, maximum, minimum, mean), and the
    facts about them that the single-pass summary relies on. */
module SeqStats {

  /** Sum of all samples. */
  function Sum(xs: seq<int>): int
  {
    if xs == [] then 0 else Sum(xs[..|xs| - 1]) + xs[|xs| - 1]
  }

  /** The largest sample. */
  function Max(xs: seq<int>): int
    requires xs != []
  {
    if |xs| == 1 then xs[0]
    else
      var m := Max(xs[..|xs| - 1]);
      if m < xs[|xs| - 1] then xs[|xs| - 1] else m
  }

  /** The smallest sample. */
  function Min(xs: seq<int>): int
    requires xs != []
  {
    if |xs| == 1 then xs[0]
    else
      var m := Min(xs[..|xs| - 1]);
      if xs[|xs| - 1] < m then xs[|xs| - 1] else m
  }

  /** `Max` is the true maximum: it occurs in the samples and none exceeds it. */
  lemma {:induction false} MaxIsGreatest(xs: seq<int>)
    requires xs != []
    ensures Max(xs) in xs
    ensures forall i :: 0 <= i < |xs| ==> xs[i] <= Max(xs)
  {
    if |xs| > 1 {
      var p := xs[..|xs| - 1];
      MaxIsGreatest(p);
      assert forall i :: 0 <= i < |p| ==> p[i] == xs[i];
    }
  }

  /** `Min` is the true minimum: it occurs in the samples and none is below it. */
  lemma {:induction false} MinIsLeast(xs: seq<int>)
    requires xs != []
    ensures Min(xs) in xs
    ensures forall i :: 0 <= i < |xs| ==> Min(xs) <= xs[i]
  {
    if |xs| > 1 {
      var p := xs[..|xs| - 1];
      MinIsLeast(p);
      assert forall i :: 0 <= i < |p| ==> p[i] == xs[i];
    }
  }

  /** Integer division rounding toward zero, as the division operator on
      signed integers does in Go (Dafny's own `/` is Euclidean). */
  function TruncDiv(a: int, n: int): (q: int)
    requires n > 0
    ensures 0 <= a ==> q * n <= a < q * n + n
    ensures a < 0 ==> q * n - n < a <= q * n
  {
    if a >= 0 then a / n else -((-a) / n)
  }

  /** The seed-both-bounds, `else if` update of a running maximum and
      minimum: when a new sample exceeds the maximum so far, the minimum test
      is skipped, and that never loses the true minimum. */
  lemma {:induction false} ElseIfScanStep(p: seq<int>, x: int)
    requires p != []
    ensures Max(p + [x]) == (if x > Max(p) then x else Max(p))
    ensures Min(p + [x]) == (if x > Max(p) then Min(p) else if x < Min(p) then x else Min(p))
  {
    assert (p + [x])[..|p|] == p;
    MaxIsGreatest(p);
    MinIsLeast(p);
    assert Min(p) <= p[0] <= Max(p);
  }

  /** Before any sample is scanned, `hi` and `lo` are both the first sample;
      after `i > 0` samples, they are the maximum and minimum of those samples. */
  ghost predicate RunningExtrema(xs: seq<int>, i: nat, hi: int, lo: int)
    requires 0 < |xs| && i <= |xs|
  {
    if i == 0 then hi == lo == xs[0] else hi == Max(xs[..i]) && lo == Min(xs[..i])
  }

  /** One step of the `else if` scan over sample `i` keeps `RunningExtrema`. */
  lemma RunningExtremaStep(xs: seq<int>, i: nat, hi: int, lo: int, hi': int, lo': int)
    requires i < |xs| && RunningExtrema(xs, i, hi, lo)
    requires hi' == (if xs[i] > hi then xs[i] else hi)
    requires lo' == (if xs[i] > hi then lo else if xs[i] < lo then xs[i] else lo)
    ensures RunningExtrema(xs, i + 1, hi', lo')
  {
    if i > 0 {
      assert xs[..i + 1] == xs[..i] + [xs[i]];
      ElseIfScanStep(xs[..i], xs[i]);
    }
  }

  /** Extending a prefix by one sample adds that sample to the sum. */
  lemma SumStep(xs: seq<int>, i: nat)
    requires i < |xs|
    ensures Sum(xs[..i + 1]) == Sum(xs[..i]) + xs[i]
  {
    assert xs[..i + 1][..i] == xs[..i];
  }

  /** When every sample lies in [lo, hi], the sum lies in [|xs| * lo, |xs| * hi]. */
  lemma {:induction false} SumBetween(xs: seq<int>, lo: int, hi: int)
    requires forall i :: 0 <= i < |xs| ==> lo <= xs[i] <= hi
    ensures |xs| * lo <= Sum(xs) <= |xs| * hi
  {
    if xs != [] {
      var p := xs[..|xs| - 1];
      SumBetween(p, lo, hi);
      assert |xs| * lo == |p| * lo + lo && |xs| * hi == |p| * hi + hi;
    }
  }

  /** A sum of nonnegative samples is nonnegative. */
  lemma {:induction false} SumNonnegative(xs: seq<int>)
    requires forall i :: 0 <= i < |xs| ==> 0 <= xs[i]
    ensures 0 <= Sum(xs)
  {
    if xs != [] {
      SumNonnegative(xs[..|xs| - 1]);
    }
  }

  /** Multiplying by a nonnegative factor preserves order. */
  lemma MulMonotone(n: nat, a: int, b: int)
    requires a <= b
    ensures n * a <= n * b
  {
  }

  /** A truncated mean of a total bounded by `n * lo` and `n * hi` stays
      within [lo, hi], whatever the sign of the total. */
  lemma TruncDivBetween(total: int, n: int, lo: int, hi: int)
    requires n > 0
    requires n * lo <= total <= n * hi
    ensures lo <= TruncDiv(total, n) <= hi
  {
    var q := TruncDiv(total, n);
    if total >= 0 {
      if q < lo {
        MulMonotone(n, q + 1, lo);
      }
      if hi < q {
        MulMonotone(n, hi + 1, q);
      }
    } else {
      if hi < q {
        MulMonotone(n, hi + 1, q);
      }
    }
  }

  /** The mean of a nonempty sequence, truncated toward zero, lies between
      its minimum and its maximum. */
  lemma TruncMeanBetween(xs: seq<int>)
    requires xs != []
    ensures Min(xs) <= TruncDiv(Sum(xs), |xs|) <= Max(xs)
  {
    MaxIsGreatest(xs);
    MinIsLeast(xs);
    SumBetween(xs, Min(xs), Max(xs));
    TruncDivBetween(Sum(xs), |xs|, Min(xs), Max(xs));
  }

  /** Floor division by a positive divisor preserves order. */
  lemma DivMonotone(a: int, b: int, d: int)
    requires 0 <= a <= b && d > 0
    ensures a / d <= b / d
  {
    var qa, qb := a / d, b / d;
    if qb < qa {
      MulMonotone(d, qb + 1, qa);
    }
  }
}
