/**
 * The state every worker writes into: the two atomic counters, the
 * status-code map and the latency buffer of `loadTest`. One worker's
 * recording is up to three separate critical sections (the latency push
 * under the mutex, one atomic increment, the map bump under the mutex), and
 * other workers may interleave between them. Every one of these updates is an
 * increment or an append whose final effect does not depend on the order, so
 * the object is modelled as one sequential value updated by `Record`, one
 * outcome at a time.
 */
module Aggregation {
  import opened Wrappers
  import opened Channels
  import opened Accounting

  class Aggregator {
    var successCount: nat
    var connectionErrorCount: nat
    var statusCodes: map<int, nat>
    /** `requestTimes`: a buffered channel of capacity `requests`. */
    const requestTimes: Channel<nat>

    /** Every outcome recorded so far, in recording order. */
    ghost var History: seq<Outcome>

    /** The counters, the map and the latency buffer are exactly what the history implies. */
    ghost predicate Valid()
      reads this, requestTimes, requestTimes.buf
    {
      && requestTimes.Valid()
      && !requestTimes.closed
      && successCount == Successes(History)
      && connectionErrorCount == ConnectionErrors(History)
      && statusCodes == Histogram(History)
      && requestTimes.Contents == Latencies(History)
    }

    /** The zero state, with a latency buffer of the given capacity. */
    constructor (capacity: nat)
      ensures Valid() && History == []
      ensures fresh(requestTimes) && fresh(requestTimes.buf)
      ensures requestTimes.Capacity() == capacity
      ensures successCount == 0 && connectionErrorCount == 0 && statusCodes == map[]
    {
      successCount, connectionErrorCount, statusCodes := 0, 0, map[];
      requestTimes := new Channel<nat>(capacity);
      History := [];
    }

    /**
     * The body of one worker iteration after the request returns: push the
     * latency whatever the outcome; for a response, count a success only for
     * status 200 and bump the bucket of its code (200 included); for a
     * connection error, count it and leave the map alone. The latency buffer
     * must have room, or the push would block forever (nothing drains it
     * before every worker has finished).
     */
    method Record(o: Outcome)
      requires Valid() && |requestTimes.Contents| < requestTimes.Capacity()
      modifies this, requestTimes, requestTimes.buf
      ensures Valid() && History == old(History) + [o]
      ensures requestTimes.Contents == old(requestTimes.Contents) + [o.latency]
      ensures successCount == old(successCount) + (if o.status == Some(StatusOK) then 1 else 0)
      ensures connectionErrorCount == old(connectionErrorCount) + (if o.status == None then 1 else 0)
      ensures o.status == None ==> statusCodes == old(statusCodes)
      ensures o.status.Some? ==>
        statusCodes == old(statusCodes)[o.status.value := Count(old(statusCodes), o.status.value) + 1]
    {
      requestTimes.Send(o.latency);
      match o.status {
        case Some(code) =>
          if code == StatusOK {
            successCount := successCount + 1;
          }
          statusCodes := statusCodes[code := Count(statusCodes, code) + 1];
        case None =>
          connectionErrorCount := connectionErrorCount + 1;
      }
      HistogramStep(History, o);
      LatenciesStep(History, o);
      CountStep(History, o, Some(StatusOK));
      CountStep(History, o, None);
      History := History + [o];
    }
  }
}
