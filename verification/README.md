# Load-test accounting, modelled in Dafny

The `charge` command of this load tester sends `requests` HTTP GET requests to
one URL from `concurrency` concurrent workers. Then it prints how many answered
200, how the other status codes were spread, how many requests hit a connection
error, and the average response time. This project models the accounting core
of `loadTest`:

- **Token queue.** A buffered channel of capacity `requests` is filled with
  `requests` unit tokens and then closed. Each worker takes tokens with
  `for range` until the closed queue is empty.
- **Recording one outcome.** The worker pushes the request's latency into a
  second buffered channel of capacity `requests`, whatever the outcome. For a
  response it bumps the status code's bucket in the map, and it bumps the
  success counter only for 200. For a connection error it bumps the error
  counter and leaves the map alone.
- **Reduction.** After every worker has returned, the latency channel is
  closed, drained, summed and counted. The average is `total / count` by
  truncating integer division, or 0 when nothing was recorded. The report lists
  the histogram without its 200 bucket as the "other" status codes.

Modules:

- `Wrappers` (`wrappers.dfy`): `Option`.
- `Channels` (`channel.dfy`): class `Channel<T>`, a Go buffered channel. It is
  a ring buffer over an array plus the `closed` flag, with `Send`, `Receive`
  and `Close`. The ghost `Contents` is the FIFO view.
- `Accounting` (`accounting.dfy`): the `Outcome` of one request and the
  functions that say what the counters, the map and the latency buffer hold
  after a history of outcomes. It also holds the lemmas about them: bucket
  exactness, successes equal to the 200 bucket, and conservation.
- `Statistics` (`statistics.dfy`): the latency sum and the truncating average.
- `Aggregation` (`aggregator.dfy`): class `Aggregator`, the shared state the
  workers write to, with the one-step `Record`.
- `LoadTest` (`load_test.dfy`): the producer (`Dispatch`), one worker's loop
  (`RunWorker`), the latency reduction (`Drain`) and the whole run (`Run`). It
  also holds the lemmas about the report a run produces.

Concurrency is modelled as one sequential schedule. The producer enqueues
every token first; it never waits, because the queue can hold all of them.
Then the workers run one after another, each until the closed queue is empty.
One worker's recording is up to three separate critical sections (the
latency push under the mutex at lines 68-70, the atomic increment at line 73
or 80, the map bump under the mutex at lines 75-77), and other workers may
interleave between them. Each of these updates is an increment or an append,
and their final effect does not depend on the order, so a sequence of `Record`
calls describes the result. The network is an input: `net[k]` is the outcome (status code or connection error,
plus the latency in nanoseconds) of the k-th request, numbered in the order
the tokens were taken.

A run with `concurrency <= 0` and `requests > 0` does not hang: the token
buffer holds all `requests` tokens (charge.go:56, :87-89), so the producer
never blocks, and `wg.Wait()` with no workers returns at once (:92). The run
reports zero successes, zero errors, no other codes and an average of 0, and
all `requests` tokens stay in the queue. A negative `concurrency` behaves
exactly as 0, because the loop at line 59 runs no times.
`Run` states exactly this through `undelivered` and `RunAccounting`.

## Model

| member | source | states |
|---|---|---|
| `Channels.Channel.constructor` | StressTest/cmd/charge.go:51-56 | `make(chan T, n)` gives an open, empty channel whose buffer holds `n` values |
| `Channels.Channel.Send` | StressTest/cmd/charge.go:88 | a send appends the value at the back of the FIFO contents and leaves the open/closed state alone; the caller must show the channel is open and has room (full buffer would block, closed channel would panic) |
| `Channels.Channel.Receive` | StressTest/cmd/charge.go:64 | a receive takes the oldest buffered value and removes exactly it, so no value is delivered twice; once the channel is closed and empty it reports exhaustion and changes nothing |
| `Channels.Channel.Close` | StressTest/cmd/charge.go:90 | closing keeps every buffered value and marks the channel closed |
| `Accounting.CountStatus` | StressTest/cmd/charge.go:71-81 | the reference count of recorded outcomes with a given status (`Some(200)` for successes, `None` for connection errors) that the aggregator's invariant holds `successCount` and `connectionErrorCount` to; it never exceeds the number of outcomes |
| `Accounting.OtherCodes` | StressTest/cmd/charge.go:117-121 | the listed codes are exactly the histogram's keys other than 200, each with its unchanged count |
| `Accounting.HistogramStep` | StressTest/cmd/charge.go:71-81 | recording a response bumps exactly its code's bucket (new or existing, 200 included); recording a connection error leaves the histogram unchanged |
| `Accounting.LatenciesStep` | StressTest/cmd/charge.go:65-70 | recording any outcome, error or not, appends exactly its latency to the latency buffer |
| `Accounting.LatencyAt` | StressTest/cmd/charge.go:69 | the i-th latency in the buffer is the latency of the i-th recorded outcome |
| `Accounting.HistogramKeys` | StressTest/cmd/charge.go:76 | a code has a bucket in the histogram exactly when at least one response carried it |
| `Accounting.HistogramCounts` | StressTest/cmd/charge.go:76 | every bucket of the histogram equals the number of responses that carried that code, and a code never seen reads as 0 |
| `Accounting.SuccessesInBucket` | StressTest/cmd/charge.go:72-76 | the success counter always equals the 200 bucket of the histogram (0 if absent) |
| `Accounting.SumValuesBump` | StressTest/cmd/charge.go:76 | incrementing one bucket of the map, new or existing, raises the sum of all counts by exactly one |
| `Accounting.ResponsesAndErrors` | StressTest/cmd/charge.go:71-81 | the sum of all histogram counts plus the connection errors equals the number of recorded outcomes |
| `Accounting.OtherCodesSplit` | StressTest/cmd/charge.go:117-121 | the histogram total is the 200 bucket plus the total of the listed other codes |
| `Accounting.Conservation` | StressTest/cmd/charge.go:64-81 | successes plus other-code responses plus connection errors equals the number of recorded outcomes |
| `Statistics.Average` | StressTest/cmd/charge.go:104-107 | with no latencies the average is 0 (no division by zero); otherwise it is the truncated quotient: `r * count <= total < (r + 1) * count` |
| `Statistics.SumBounds` | StressTest/cmd/charge.go:100-103 | the accumulated total of latencies all within [lo, hi] lies between `count * lo` and `count * hi` |
| `Statistics.AverageWithinRange` | StressTest/cmd/charge.go:98-107 | the average of a nonempty set of latencies lies between the smallest and the largest bound on them |
| `Statistics.AverageExample` | StressTest/cmd/charge.go:104-107 | latencies of 10 ms, 20 ms and 30 ms average to 20 ms |
| `Aggregation.Aggregator.constructor` | StressTest/cmd/charge.go:46-51 | the counters start at 0, the map empty, and the latency buffer empty with capacity `requests` |
| `Aggregation.Aggregator.Record` | StressTest/cmd/charge.go:65-81 | one worker step: the latency is pushed whatever the outcome; the success counter rises by one iff the status is 200; the error counter rises by one iff there was no response; the map changes only in the response's bucket, by one, and not at all on an error; the counters, map and buffer stay equal to the functions of the recorded history |
| `LoadTest.Dispatch` | StressTest/cmd/charge.go:56-90 | the producer fills a queue of capacity `requests` with exactly `requests` tokens without ever finding it full, then closes it |
| `LoadTest.RunWorker` | StressTest/cmd/charge.go:61-83 | a worker's loop ends exactly when the closed queue is empty; it records one outcome per token taken, in order, and no more |
| `LoadTest.Drain` | StressTest/cmd/charge.go:98-103 | draining the closed latency channel leaves it empty and yields the sum and the number of the latencies it held |
| `LoadTest.Run` | StressTest/cmd/charge.go:44-128 | the report of a whole run equals the summary of the network's outcomes (all of them when `concurrency > 0`, none otherwise); the tokens left undelivered are `requests` when `concurrency <= 0` and 0 otherwise |
| `LoadTest.RunAccounting` | StressTest/cmd/charge.go:56-92 | successes plus other-code counts plus connection errors equals `requests` when `concurrency > 0`; with `concurrency <= 0` every counted figure of the report (successes, other codes, errors, average) is 0, while `requests` and `concurrency` are reported as given |
| `LoadTest.RunSuccesses` | StressTest/cmd/charge.go:109-121 | the reported success count is the 200 bucket of the histogram; the listed other codes are exactly the non-200 codes some response carried, each with the number of responses that carried it |
| `LoadTest.RunAverageWithinRange` | StressTest/cmd/charge.go:98-107 | the reported average lies between any lower and upper bound on the individual latencies |
| `LoadTest.ExampleRun` | StressTest/cmd/charge.go:44-128 | two 404s, one 500 and two 200s give 2 successes, other codes {404: 2, 500: 1}, no connection errors, and the 20 ms average of their latencies |

## Left out

- Command wiring and flag parsing (`chargeCmd`, `init`, lines 13-42): these are CLI plumbing. `requests` is a `nat` parameter, because Go's `make` panics on a negative size (lines 51, 56). `concurrency` is an `int`, and any value up to 0 runs no worker.
- The HTTP client, `client.Get` and `resp.Body.Close()` (lines 63, 66, 78): these are network I/O. The outcome of each request is the input `net`.
- Wall-clock timing (`time.Now`, `time.Since`, `totalDuration`, lines 53, 65, 67, 95-96): each latency is a nonnegative number of nanoseconds taken from the input. The total elapsed time is not part of `Report`.
- Goroutines, `sync.WaitGroup`, `sync.Mutex` and `atomic.Int64`: the model runs one sequential schedule of indivisible steps. It does not prove that every other interleaving gives the same report, although the counters, the map and the latency sum do not depend on the order.
- Channels.Channel.Receive: a receive on an open, empty channel blocks in Go. The model requires the channel to be closed or nonempty, because the modelled schedule never receives before the queue is closed.
- Channels.Channel.Send: an unbuffered channel (`make(chan T, 0)`, which is what `requests == 0` creates) hands values directly to a receiver. The model treats it as a buffer with no room. No send happens in that case.
- Statistics.Average: does not model int64 overflow of `totalResponseTime`, because the latencies are unbounded naturals. Go's truncating division agrees with Dafny's on the nonnegative operands used here.
- Report rendering with `fmt.Printf` and the URL line (lines 112-127): this is output formatting. Go's map iteration order is left out because it is nondeterministic. The report keeps the other codes as a map.
