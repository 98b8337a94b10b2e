# hyperbase-bench result store, in Dafny

hyperbase-bench is a load generator. It sends insert requests to a Hyperbase
backend over HTTP or MQTT. Every worker times its request and records the
outcome in a shared `Store`. After the run, `Store.PrintResult` makes one pass
over the recorded outcomes and logs a summary. The log gives the request
count; the total, average, highest and lowest duration; the average,
highest and lowest CPU percentage; the average, highest and lowest host RAM
in MiB; and the number of failed requests. The RAM total is computed but
not printed. This model covers every figure except the CPU ones.

This project models that store (`common_test.go`):

- `wrappers.dfy`, module `Wrappers`: the `Option` type. A summary of an empty
  store is `None`.
- `seq_stats.dfy`, module `SeqStats`: reference definitions over a sequence of
  integer samples. These are the sum, the maximum, the minimum, and Go's
  truncating integer division (`TruncDiv`). The module also proves the facts
  the summary needs. `Max` and `Min` are the true extrema. The `else if`
  update keeps both bounds right. A mean lies between the minimum and the
  maximum. Dividing by `BytesPerMiB` keeps that order.
- `store.dfy`, module `Bench`: the `Result` record, the `Stats` figures, the
  pure specification `Summary`, and the class `Store`. The class has a
  `results` sequence field, `Append`, and `Summarize`. `Summarize` is the
  statistics loop of `PrintResult`. It is written as the source's single
  `for` loop, and its invariants tie every running variable to the
  reference definitions over the prefix scanned so far.

Units and signedness follow the source; widths do not, because integers
here are unbounded (Go's `int64` and `uint64` become `int` and `nat`). A duration is an integer number of
nanoseconds (Go's `time.Duration`). RAM is an unsigned byte count (`nat`). The
average duration uses Go's signed division, which truncates toward zero. The
average RAM uses unsigned division. `Summarize` has no `modifies` clause, so
calling it twice without an `Append` in between gives the same statistics.

A failed RAM or CPU query is not replaced by zero: the code discards the
errors and reads `v.Used` and `cpuPercentages[0]` directly
(`common_test.go:65-67`). `Append` takes the two samples as parameters and
assumes no fallback value.

## Model

| member | source | states |
|---|---|---|
| `Bench.Store.constructor` | common_test.go:58-61 | a new store (Go's zero value `Store{}`) holds no outcomes |
| `Bench.Store.Append` | common_test.go:63-69 | the result list grows by exactly one outcome at the end, carrying the given duration, RAM sample, CPU sample and success flag; earlier outcomes are unchanged |
| `Bench.Store.Summarize` | common_test.go:71-119 | the one-pass loop (totals, error count, highest/lowest seeded from the first outcome and updated with `else if`) returns exactly `Summary(results)`, and returns nothing for an empty store |
| `Bench.Summary` | common_test.go:75-77 | there is no summary exactly when the store is empty, so no average divides by zero |
| `Bench.SummaryMeaning` | common_test.go:79-119 | for a nonempty store: count is the number of outcomes; highest and lowest duration and RAM each occur among the outcomes and bound every outcome; each average is its total over the count and lies between lowest and highest; the error total is the number of failed outcomes and at most the count |
| `Bench.Failures` | common_test.go:93-100 | the error count never exceeds the number of outcomes; it is zero iff every request succeeded, and equals the count iff every request failed |
| `Bench.FailuresCountsFailedIndices` | common_test.go:98-100 | the error count equals the number of positions that hold a failed outcome |
| `SeqStats.MaxIsGreatest` | common_test.go:101-102 | the reference maximum occurs among the samples and no sample exceeds it |
| `SeqStats.MinIsLeast` | common_test.go:103-104 | the reference minimum occurs among the samples and no sample is below it |
| `SeqStats.ElseIfScanStep` | common_test.go:101-105 | after one `else if` update the bounds are the true maximum and minimum of the longer prefix; when a new maximum is found, skipping the minimum test loses nothing |
| `SeqStats.RunningExtremaStep` | common_test.go:82-83 | the bounds start as the first value and stay the maximum and minimum of the scanned prefix after each `else if` step; the RAM bounds of lines 90-91 and 111-115 use the same lemma |
| `SeqStats.SumStep` | common_test.go:95-97 | adding one more value to a running total gives the sum of the one-longer prefix |
| `SeqStats.SumNonnegative` | common_test.go:89-97 | the RAM total, a sum of unsigned samples, is never negative |
| `SeqStats.SumBetween` | common_test.go:95-97 | a total of values bounded by lo and hi lies between count times lo and count times hi |
| `SeqStats.TruncDiv` | common_test.go:117 | signed integer division truncates toward zero: the quotient times the divisor is within one divisor of the total, on the side toward zero |
| `SeqStats.TruncDivBetween` | common_test.go:117 | a truncated average of a total bounded by count times lo and count times hi lies in [lo, hi], whatever the sign of the total |
| `SeqStats.TruncMeanBetween` | common_test.go:117 | the average duration lies between the lowest and the highest duration |
| `SeqStats.DivMonotone` | common_test.go:149-151 | dividing lowest, average and highest RAM by `BytesPerMiB` (2^20) keeps lowest <= average <= highest |

## Left out

- The mutex of `Store` (`common_test.go:59, 64, 68, 72-73`) only serialises concurrent callers. Each method of the class runs atomically instead.
- `mem.VirtualMemory` and `cpu.Percent` (`common_test.go:65-66`) are operating-system queries. Their results become parameters of `Append`. The model does not capture the panic when those calls fail: a nil `v` or an empty CPU slice.
- The CPU statistics (`common_test.go:85-87, 96, 106-110, 118`) are float64 arithmetic. `Append` stores the CPU sample as a `real`. The summary omits the CPU total, average, highest and lowest.
- Bench.Store.Summarize: the duration and RAM totals are unbounded integers. The source's `int` and `uint64` accumulators would wrap around past 2^63-1 and 2^64-1. That wrap-around is not modelled.
- The `t.Logf` report text (`common_test.go:121-154`) is presentation only. The MiB conversion it applies is covered by `DivMonotone`.
- `getAuthToken` and the JSON request and response types (`common_test.go:22-49, 157-190`) are HTTP and JSON glue.
- The drivers in `http_insert_one_test.go`, `http_insert_one_until_test.go` and `mqtt_insert_one_test.go` are environment parsing, goroutine worker pools over channels, interrupt handling and HTTP/MQTT client calls. They are not part of this model.
