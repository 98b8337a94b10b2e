/** The result store of the benchmark harness: an append-only list of
    per-request outcomes and the one-pass summary computed from it before
    the report is logged. */
module Bench {
  import opened Wrappers
  import opened SeqStats

  /** Bytes in one mebibyte, 2^20; the report gives RAM figures in MiB. */
  const BytesPerMiB: nat := 0x10_0000

  /** One request outcome: elapsed time in nanoseconds, host RAM in use in
      bytes and host CPU percentage sampled when it was recorded, and whether
      the request succeeded. */
  datatype Result = Result(duration: int, ramUsage: nat, cpuPercentage: real, success: bool)

  /** The figures the summary computes before formatting its report. */
  datatype Stats = Stats(
    count: nat,
    totalDuration: int,
    averageDuration: int,
    highestDuration: int,
    lowestDuration: int,
    totalRamUsage: nat,
    averageRamUsage: nat,
    highestRamUsage: nat,
    lowestRamUsage: nat,
    totalError: nat)

  /** The durations of the outcomes, in order. The ensures repeats the
      comprehension so that the solver sees it where the function is used. */
  function Durations(rs: seq<Result>): (ds: seq<int>)
    ensures |ds| == |rs| && forall i :: 0 <= i < |rs| ==> ds[i] == rs[i].duration
  {
    seq(|rs|, i requires 0 <= i < |rs| => rs[i].duration)
  }

  /** The RAM samples of the outcomes, in order. The ensures repeats the
      comprehension so that the solver sees it where the function is used. */
  function RamUsages(rs: seq<Result>): (ms: seq<int>)
    ensures |ms| == |rs| && forall i :: 0 <= i < |rs| ==> ms[i] == rs[i].ramUsage >= 0
  {
    seq(|rs|, i requires 0 <= i < |rs| => rs[i].ramUsage)
  }

  /** Division of unsigned integers, as the summary divides its RAM total. */
  function UintDiv(a: nat, b: nat): nat
    requires b > 0
  {
    a / b
  }

  /** Positions of the failed requests. */
  ghost function FailedIndices(rs: seq<Result>): set<nat>
  {
    set i: nat | i < |rs| && !rs[i].success
  }

  /** Number of failed requests. */
  function Failures(rs: seq<Result>): (k: nat)
    ensures k <= |rs|
    ensures k == 0 <==> forall i :: 0 <= i < |rs| ==> rs[i].success
    ensures k == |rs| <==> forall i :: 0 <= i < |rs| ==> !rs[i].success
  {
    if rs == [] then 0
    else
      var p := rs[..|rs| - 1];
      var k := Failures(p);
      assert forall i :: 0 <= i < |p| ==> p[i] == rs[i];
      if rs[|rs| - 1].success then k else k + 1
  }

  /** The failure count is the number of positions holding a failed request. */
  lemma {:induction false} FailuresCountsFailedIndices(rs: seq<Result>)
    ensures Failures(rs) == |FailedIndices(rs)|
  {
    if rs != [] {
      var p := rs[..|rs| - 1];
      FailuresCountsFailedIndices(p);
      var last := |rs| - 1;
      var added := if rs[last].success then {} else {last};
      assert forall j :: j in FailedIndices(rs) <==> j in FailedIndices(p) || j in added by {
        assert forall j :: 0 <= j < |p| ==> p[j] == rs[j];
      }
      assert FailedIndices(rs) == FailedIndices(p) + added;
      assert FailedIndices(p) !! added;
    }
  }

  /** The summary of a list of outcomes, or nothing when the list is empty
      (so the averages never divide by zero). */
  function Summary(rs: seq<Result>): (r: Option<Stats>)
    ensures r.None? <==> rs == []
  {
    if rs == [] then None
    else
      var ds, ms, n := Durations(rs), RamUsages(rs), |rs|;
      SumNonnegative(ms);
      MaxIsGreatest(ms);
      MinIsLeast(ms);
      Some(Stats(n, Sum(ds), TruncDiv(Sum(ds), n), Max(ds), Min(ds),
                 Sum(ms), UintDiv(Sum(ms), n), Max(ms), Min(ms), Failures(rs)))
  }

  /** What the summary of a nonempty list means: the count is the list's
      length; the highest and lowest duration and RAM figures are values that
      occur in the list and bound every value in it; each average is its
      total divided by the count (truncated toward zero for durations) and
      lies between lowest and highest, also after conversion to MiB; the
      error total counts the failed requests. */
  lemma SummaryMeaning(rs: seq<Result>)
    requires rs != []
    ensures var st := Summary(rs).value;
      && st.count == |rs|
      && (forall i :: 0 <= i < |rs| ==> st.lowestDuration <= rs[i].duration <= st.highestDuration)
      && (exists i :: 0 <= i < |rs| && rs[i].duration == st.highestDuration)
      && (exists i :: 0 <= i < |rs| && rs[i].duration == st.lowestDuration)
      && st.averageDuration == TruncDiv(st.totalDuration, st.count)
      && st.lowestDuration <= st.averageDuration <= st.highestDuration
      && (forall i :: 0 <= i < |rs| ==> st.lowestRamUsage <= rs[i].ramUsage <= st.highestRamUsage)
      && (exists i :: 0 <= i < |rs| && rs[i].ramUsage == st.highestRamUsage)
      && (exists i :: 0 <= i < |rs| && rs[i].ramUsage == st.lowestRamUsage)
      && st.averageRamUsage == st.totalRamUsage / st.count
      && st.lowestRamUsage <= st.averageRamUsage <= st.highestRamUsage
      && st.lowestRamUsage / BytesPerMiB <= st.averageRamUsage / BytesPerMiB
                                        <= st.highestRamUsage / BytesPerMiB
      && st.totalError == |FailedIndices(rs)| <= st.count
  {
    var ds, ms, n := Durations(rs), RamUsages(rs), |rs|;
    TruncMeanBetween(ds);
    TruncMeanBetween(ms);
    SumNonnegative(ms);
    MaxIsGreatest(ds);
    MinIsLeast(ds);
    MaxIsGreatest(ms);
    MinIsLeast(ms);
    assert Max(ds) in ds && Min(ds) in ds && Max(ms) in ms && Min(ms) in ms;
    DivMonotone(Min(ms), Sum(ms) / n, BytesPerMiB);
    DivMonotone(Sum(ms) / n, Max(ms), BytesPerMiB);
    FailuresCountsFailedIndices(rs);
  }

  /** The store shared by the request workers; the mutex guarding it is not
      modelled, so each method runs atomically. */
  class Store {
    var results: seq<Result>

    /** A fresh store holds no outcomes. */
    constructor ()
      ensures results == []
    {
      results := [];
    }

    /** Records one outcome, with the RAM and CPU samples taken at that
        moment passed in. */
    method Append(d: int, ramUsed: nat, cpuPercent: real, success: bool)
      modifies this
      ensures results == old(results) + [Result(d, ramUsed, cpuPercent, success)]
      // the two clauses below follow from the first; they spell out for
      // callers that the list grows by one and its old entries stay put
      ensures |results| == |old(results)| + 1
      ensures results[..|old(results)|] == old(results)
    {
      results := results + [Result(d, ramUsed, cpuPercent, success)];
    }

    /** One pass over the outcomes, seeding the highest and lowest values
        from the first outcome and updating them with an `else if`; nothing
        is computed when the store is empty. */
    method Summarize() returns (stats: Option<Stats>)
      ensures stats == Summary(results)
    {
      if |results| == 0 {
        return None;
      }
      var n := |results|;
      ghost var ds, ms := Durations(results), RamUsages(results);

      var totalDuration := 0;
      var highestDuration := results[0].duration;
      var lowestDuration := results[0].duration;

      var totalRamUsage: nat := 0;
      var highestRamUsage := results[0].ramUsage;
      var lowestRamUsage := results[0].ramUsage;

      var totalError: nat := 0;
      for i := 0 to n
        invariant totalDuration == Sum(ds[..i])
        invariant totalRamUsage == Sum(ms[..i])
        invariant totalError == Failures(results[..i])
        invariant RunningExtrema(ds, i, highestDuration, lowestDuration)
        invariant RunningExtrema(ms, i, highestRamUsage, lowestRamUsage)
      {
        var r := results[i];
        ghost var hd, ld, hm, lm := highestDuration, lowestDuration, highestRamUsage, lowestRamUsage;

        totalDuration := totalDuration + r.duration;
        totalRamUsage := totalRamUsage + r.ramUsage;
        if !r.success {
          totalError := totalError + 1;
        }
        if r.duration > highestDuration {
          highestDuration := r.duration;
        } else if r.duration < lowestDuration {
          lowestDuration := r.duration;
        }
        if r.ramUsage > highestRamUsage {
          highestRamUsage := r.ramUsage;
        } else if r.ramUsage < lowestRamUsage {
          lowestRamUsage := r.ramUsage;
        }

        SumStep(ds, i);
        SumStep(ms, i);
        assert results[..i + 1][..i] == results[..i];
        RunningExtremaStep(ds, i, hd, ld, highestDuration, lowestDuration);
        RunningExtremaStep(ms, i, hm, lm, highestRamUsage, lowestRamUsage);
      }
      assert ds[..n] == ds && ms[..n] == ms && results[..n] == results;
      var averageDuration := TruncDiv(totalDuration, n);
      var averageRamUsage := UintDiv(totalRamUsage, n);
      stats := Some(Stats(n, totalDuration, averageDuration, highestDuration, lowestDuration,
                          totalRamUsage, averageRamUsage, highestRamUsage, lowestRamUsage,
                          totalError));
    }
  }
}
