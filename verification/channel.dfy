/**
 * A buffered Go channel (`make(chan T, n)`): a FIFO ring buffer of fixed
 * capacity over an array, together with the flag set by `close`.
 *
 * The load tester uses two of them: the token queue that hands out one unit of
 * work per request, and the buffer that collects one latency per request.
 */
module Channels {
  import opened Wrappers

  class Channel<T(0)> {
    /** The values sent and not yet received, oldest first. */
    ghost var Contents: seq<T>

    const buf: array<T>
    var head: nat
    var count: nat
    var closed: bool

    /** The buffer size given to `make`. */
    function Capacity(): nat
    {
      buf.Length
    }

    /** Array index of the i-th buffered value, counting from the oldest. */
    function Slot(i: nat): nat
      reads this
    {
      if head + i < buf.Length then head + i else head + i - buf.Length
    }

    ghost predicate Valid()
      reads this, buf
    {
      && count <= buf.Length
      && (buf.Length == 0 ==> head == 0)
      && (buf.Length > 0 ==> head < buf.Length)
      && |Contents| == count
      && forall i :: 0 <= i < count ==> Contents[i] == buf[Slot(i)]
    }

    constructor (capacity: nat)
      ensures Valid() && fresh(buf)
      ensures Capacity() == capacity && Contents == [] && !closed
    {
      buf := new T[capacity];
      head, count, closed := 0, 0, false;
      Contents := [];
    }

    /** Number of values waiting in the buffer (Go's `len(ch)`). */
    function Len(): (n: nat)
      reads this, buf
      requires Valid()
      ensures n == |Contents|
    {
      count
    }

    /**
     * `ch <- x`. Sending on a closed channel panics, and a send that finds the
     * buffer full blocks until a receiver makes room; the callers in this
     * program never do either, which is what meeting this precondition shows.
     */
    method Send(x: T)
      requires Valid() && !closed && |Contents| < Capacity()
      modifies this, buf
      ensures Valid() && closed == old(closed)
      ensures Contents == old(Contents) + [x]
    {
      buf[Slot(count)] := x;
      count := count + 1;
      Contents := Contents + [x];
    }

    /**
     * `x, ok := <-ch`, the step of a `for range ch` loop. A buffered value is
     * delivered even after `close`; once the channel is closed and empty every
     * receive reports exhaustion (`None`) at once. A receive on an open, empty
     * channel would block; the schedule modelled here never performs one.
     */
    method Receive() returns (r: Option<T>)
      requires Valid() && (closed || |Contents| > 0)
      modifies this
      ensures Valid() && closed == old(closed)
      ensures old(Contents) == [] ==> r == None && Contents == []
      ensures old(Contents) != [] ==> r == Some(old(Contents)[0]) && Contents == old(Contents)[1..]
    {
      if count == 0 {
        r := None;
      } else {
        r := Some(buf[head]);
        head := Slot(1);
        count := count - 1;
        Contents := Contents[1..];
      }
    }

    /** `close(ch)`: no further sends; values already buffered stay receivable. Closing twice panics. */
    method Close()
      requires Valid() && !closed
      modifies this
      ensures Valid() && closed && Contents == old(Contents)
    {
      closed := true;
    }
  }
}
