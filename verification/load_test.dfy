/**
 * `loadTest`: fill and close the token queue, let the workers drain it, wait
 * for all of them, then reduce the latency buffer and summarise the counters.
 *
 * Workers are modelled as running one after another, each until the closed
 * token queue is empty, after the producer has enqueued every token. The
 * producer can run first because the queue holds all `requests` tokens at
 * once, so none of its sends ever waits for a worker. The outcome of the k-th
 * request, counted in the order tokens are taken, is `net[k]`.
 */
module LoadTest {
  import opened Wrappers
  import opened Channels
  import opened Accounting
  import opened Statistics
  import opened Aggregation

  /** The figures the report prints, apart from the URL and the wall-clock total. */
  datatype Report = Report(
    requests: nat,
    concurrency: int,
    successCount: nat,
    otherCodes: map<int, nat>,
    averageLatency: nat,
    connectionErrors: nat)

  /** The report a run that recorded the outcomes `h` produces. */
  function Summarise(requests: nat, concurrency: int, h: seq<Outcome>): Report
  {
    Report(requests, concurrency, Successes(h), OtherCodes(Histogram(h)),
           Average(Sum(Latencies(h)), |h|), ConnectionErrors(h))
  }

  /**
   * The report of a whole run: with at least one worker every token is taken
   * and every answer of the network is recorded; with none, nothing is.
   */
  function Expected(requests: nat, concurrency: int, net: seq<Outcome>): Report
    requires |net| == requests
  {
    Summarise(requests, concurrency, if concurrency <= 0 then [] else net)
  }

  /** The producer: a queue of capacity `requests` filled with `requests` tokens, then closed. */
  method Dispatch(requests: nat) returns (queue: Channel<()>)
    ensures fresh(queue) && fresh(queue.buf) && queue.Valid()
    ensures queue.closed && queue.Capacity() == requests && |queue.Contents| == requests
  {
    queue := new Channel<()>(requests);
    var i := 0;
    while i < requests
      invariant 0 <= i <= requests
      invariant queue.Valid() && !queue.closed && queue.Capacity() == requests
      invariant |queue.Contents| == i
    {
      queue.Send(());
      i := i + 1;
    }
    queue.Close();
  }

  /**
   * One worker: `for range requestCounter`, performing one request per token
   * and recording its outcome, until the closed queue is empty. `next` is the
   * position in `net` of the next answer the network gives.
   */
  method RunWorker(queue: Channel<()>, agg: Aggregator, net: seq<Outcome>, start: nat)
    returns (next: nat)
    requires queue.Valid() && queue.closed && agg.Valid()
    requires {queue, queue.buf} !! {agg, agg.requestTimes, agg.requestTimes.buf}
    requires start + |queue.Contents| == |net| && agg.History == net[..start]
    requires |net| <= agg.requestTimes.Capacity()
    modifies queue, agg, agg.requestTimes, agg.requestTimes.buf
    ensures queue.Valid() && queue.closed && queue.Contents == []
    ensures agg.Valid() && next == |net| && agg.History == net
  {
    next := start;
    while true
      invariant queue.Valid() && queue.closed && agg.Valid()
      invariant next + |queue.Contents| == |net| && agg.History == net[..next]
      decreases |queue.Contents|
    {
      var token := queue.Receive();
      if token == None {
        break;
      }
      agg.Record(net[next]);
      assert net[..next + 1] == net[..next] + [net[next]];
      next := next + 1;
    }
  }

  /** `for rt := range requestTimes`: sum and count the buffered latencies. */
  method Drain(times: Channel<nat>) returns (total: nat, count: nat)
    requires times.Valid() && times.closed
    modifies times
    ensures times.Valid() && times.Contents == []
    ensures total == Sum(old(times.Contents)) && count == |old(times.Contents)|
  {
    total, count := 0, 0;
    while true
      invariant times.Valid() && times.closed
      invariant total + Sum(times.Contents) == Sum(old(times.Contents))
      invariant count + |times.Contents| == |old(times.Contents)|
      decreases |times.Contents|
    {
      var rt := times.Receive();
      match rt {
        case None => break;
        case Some(d) =>
          total, count := total + d, count + 1;
      }
    }
  }

  /**
   * A whole run. `undelivered` is the number of tokens still queued when the
   * workers have all returned.
   */
  method Run(requests: nat, concurrency: int, net: seq<Outcome>) returns (report: Report, undelivered: nat)
    requires |net| == requests
    ensures report == Expected(requests, concurrency, net)
    ensures undelivered == if concurrency <= 0 then requests else 0
  {
    var agg := new Aggregator(requests);
    var queue := Dispatch(requests);
    var next := 0;
    var w := 0;
    while w < concurrency
      invariant 0 <= w && (w == 0 || w <= concurrency)
      invariant fresh(agg) && fresh(agg.requestTimes) && fresh(agg.requestTimes.buf)
      invariant fresh(queue) && fresh(queue.buf)
      invariant queue.Valid() && queue.closed && agg.Valid()
      invariant agg.requestTimes.Capacity() == requests
      invariant next + |queue.Contents| == requests && agg.History == net[..next]
      invariant w == 0 ==> next == 0
      invariant w > 0 ==> next == requests
    {
      next := RunWorker(queue, agg, net, next);
      w := w + 1;
    }
    assert agg.History == if concurrency <= 0 then [] else net;
    undelivered := queue.Len();
    agg.requestTimes.Close();
    var total, count := Drain(agg.requestTimes);
    report := Report(requests, concurrency, agg.successCount, OtherCodes(agg.statusCodes),
                     Average(total, count), agg.connectionErrorCount);
  }

  // ---------------------------------------------------------------------------
  // What a finished run reports.

  /**
   * Every request is accounted for exactly once: successes, other status
   * codes and connection errors add up to `requests` when there is at least
   * one worker; with no worker nothing is counted and the average is 0.
   */
  lemma RunAccounting(requests: nat, concurrency: int, net: seq<Outcome>)
    requires |net| == requests
    ensures var r := Expected(requests, concurrency, net);
      r.successCount + SumValues(r.otherCodes) + r.connectionErrors
        == if concurrency <= 0 then 0 else requests
    ensures concurrency <= 0 ==>
      Expected(requests, concurrency, net) == Report(requests, concurrency, 0, map[], 0, 0)
  {
    Conservation(if concurrency <= 0 then [] else net);
  }

  /**
   * The reported success count is the 200 bucket of the full histogram, and
   * the other codes listed are exactly the non-200 codes some response
   * carried, each with the number of responses that carried it.
   */
  lemma RunSuccesses(requests: nat, concurrency: int, net: seq<Outcome>)
    requires |net| == requests && concurrency > 0
    ensures Expected(requests, concurrency, net).successCount == Count(Histogram(net), StatusOK)
    ensures forall c :: c in Expected(requests, concurrency, net).otherCodes <==>
      c != StatusOK && CountStatus(net, Some(c)) > 0
    ensures forall c :: c != StatusOK ==>
      Count(Expected(requests, concurrency, net).otherCodes, c) == CountStatus(net, Some(c))
  {
    SuccessesInBucket(net);
    forall c
      ensures c in Expected(requests, concurrency, net).otherCodes <==>
        c != StatusOK && CountStatus(net, Some(c)) > 0
      ensures c != StatusOK ==>
        Count(Expected(requests, concurrency, net).otherCodes, c) == CountStatus(net, Some(c))
    {
      HistogramCounts(net, c);
      HistogramKeys(net, c);
    }
  }

  /** The reported average lies between the fastest and the slowest request. */
  lemma RunAverageWithinRange(requests: nat, concurrency: int, net: seq<Outcome>, lo: nat, hi: nat)
    requires |net| == requests && requests > 0 && concurrency > 0
    requires forall i :: 0 <= i < |net| ==> lo <= net[i].latency <= hi
    ensures lo <= Expected(requests, concurrency, net).averageLatency <= hi
  {
    forall i | 0 <= i < |net| ensures lo <= Latencies(net)[i] <= hi {
      LatencyAt(net, i);
    }
    AverageWithinRange(Latencies(net), lo, hi);
  }

  /**
   * Two 404s, one 500 and two 200s, with latencies of 10, 20, 30, 20 and
   * 20 ms, on two workers: two successes, {404: 2, 500: 1} as other codes,
   * no connection errors and a 20 ms average.
   */
  lemma ExampleRun()
    ensures
      var ms := 1_000_000;
      var net := [Outcome(Some(404), 10 * ms), Outcome(Some(200), 20 * ms), Outcome(Some(500), 30 * ms),
                  Outcome(Some(404), 20 * ms), Outcome(Some(200), 20 * ms)];
      Expected(5, 2, net) == Report(5, 2, 2, map[404 := 2, 500 := 1], 20 * ms, 0)
  {
    var ms := 1_000_000;
    var o1, o2, o3 := Outcome(Some(404), 10 * ms), Outcome(Some(200), 20 * ms), Outcome(Some(500), 30 * ms);
    var o4, o5 := Outcome(Some(404), 20 * ms), Outcome(Some(200), 20 * ms);
    var net := [o1, o2, o3, o4, o5];
    forall k | 0 <= k < 5
      ensures Histogram(net[..k + 1]) == Histogram(net[..k])[net[k].status.value := Count(Histogram(net[..k]), net[k].status.value) + 1]
      ensures Successes(net[..k + 1]) == Successes(net[..k]) + (if net[k].status == Some(StatusOK) then 1 else 0)
      ensures ConnectionErrors(net[..k + 1]) == ConnectionErrors(net[..k])
      ensures Latencies(net[..k + 1]) == Latencies(net[..k]) + [net[k].latency]
    {
      assert net[..k + 1] == net[..k] + [net[k]];
      HistogramStep(net[..k], net[k]);
      CountStep(net[..k], net[k], Some(StatusOK));
      CountStep(net[..k], net[k], None);
      LatenciesStep(net[..k], net[k]);
    }
    assert net[..5] == net;
    assert Histogram(net[..2]) == map[404 := 1, 200 := 1];
    assert Histogram(net[..4]) == map[404 := 2, 200 := 1, 500 := 1];
    assert Histogram(net) == map[404 := 2, 200 := 2, 500 := 1];
    assert OtherCodes(Histogram(net)) == map[404 := 2, 500 := 1];
    assert Latencies(net) == [10 * ms, 20 * ms, 30 * ms, 20 * ms, 20 * ms];
  }
}
