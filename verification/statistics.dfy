/**
 * The post-run latency reduction: the drained latencies are summed and
 * counted, and the average is their quotient by truncating integer division
 * (Go's `time.Duration` is an int64 count of nanoseconds), or 0 when nothing
 * was recorded.
 */
module Statistics {

  /** Sum of a sequence of durations. */
  function Sum(s: seq<nat>): nat
  {
    if s == [] then 0 else s[0] + Sum(s[1..])
  }

  /**
   * `totalResponseTime / time.Duration(requestCount)` guarded by
   * `requestCount > 0`: the largest duration that, taken `count` times, does
   * not exceed the total; 0 when there is nothing to average.
   */
  function Average(total: nat, count: nat): (r: nat)
    ensures count == 0 ==> r == 0
    ensures count > 0 ==> r * count <= total < (r + 1) * count
  {
    if count > 0 then total / count else 0
  }

  /** If every latency lies in [lo, hi], so does their sum divided by their count, times the count. */
  lemma {:induction false} SumBounds(s: seq<nat>, lo: nat, hi: nat)
    requires forall i :: 0 <= i < |s| ==> lo <= s[i] <= hi
    ensures |s| * lo <= Sum(s) <= |s| * hi
  {
    if s != [] {
      SumBounds(s[1..], lo, hi);
    }
  }

  /** An average of a total squeezed between `n * lo` and `n * hi` lies in [lo, hi]. */
  lemma AverageBetween(total: nat, n: nat, lo: nat, hi: nat)
    requires n > 0 && n * lo <= total <= n * hi
    ensures lo <= Average(total, n) <= hi
  {
  }

  /** The average of recorded latencies lies between the fastest and the slowest of them. */
  lemma AverageWithinRange(s: seq<nat>, lo: nat, hi: nat)
    requires s != []
    requires forall i :: 0 <= i < |s| ==> lo <= s[i] <= hi
    ensures lo <= Average(Sum(s), |s|) <= hi
  {
    SumBounds(s, lo, hi);
    AverageBetween(Sum(s), |s|, lo, hi);
  }

  /** Averaging three responses of 10 ms, 20 ms and 30 ms gives 20 ms. */
  lemma AverageExample()
    ensures Average(Sum([10_000_000, 20_000_000, 30_000_000]), 3) == 20_000_000
  {
  }
}
