/**
 * What the load tester records about each request, and what the shared
 * counters, status-code histogram and latency buffer must hold after any
 * sequence of recorded outcomes (the "history", in the order the outcomes
 * were recorded).
 */
module Accounting {
  import opened Wrappers

  /** Go's `http.StatusOK`. */
  const StatusOK: int := 200

  /**
   * One request attempt as a worker sees it: the status code of the response,
   * or `None` when the request did not complete (connection error), and the
   * elapsed time in nanoseconds, measured whatever the outcome.
   */
  datatype Outcome = Outcome(status: Option<int>, latency: nat)

  /** Bucket `code` of a histogram; a code never seen reads as 0, as with a Go map. */
  function Count(m: map<int, nat>, code: int): nat
  {
    if code in m then m[code] else 0
  }

  /** Number of recorded outcomes whose status is `s`. */
  function CountStatus(h: seq<Outcome>, s: Option<int>): (n: nat)
    ensures n <= |h|
  {
    if h == [] then 0
    else CountStatus(h[..|h| - 1], s) + (if h[|h| - 1].status == s then 1 else 0)
  }

  /** Outcomes that count as a success: a response with status 200. */
  function Successes(h: seq<Outcome>): nat
  {
    CountStatus(h, Some(StatusOK))
  }

  /** Outcomes that never got a response. */
  function ConnectionErrors(h: seq<Outcome>): nat
  {
    CountStatus(h, None)
  }

  /** The histogram a run of in-place bucket increments leaves behind, one per completed response. */
  function Histogram(h: seq<Outcome>): (m: map<int, nat>)

  {
    if h == [] then map[]
    else
      var m0 := Histogram(h[..|h| - 1]);
      match h[|h| - 1].status
      case None => m0
      case Some(c) => m0[c := Count(m0, c) + 1]
  }

  /** The latencies in the order they were pushed. */
  function Latencies(h: seq<Outcome>): (ls: seq<nat>)
    ensures |ls| == |h|

  {
    if h == [] then [] else Latencies(h[..|h| - 1]) + [h[|h| - 1].latency]
  }

  /** The histogram with the 200 bucket left out: what the report lists as "other" status codes. */
  function OtherCodes(m: map<int, nat>): (r: map<int, nat>)
    ensures StatusOK !in r
    ensures r.Keys == m.Keys - {StatusOK}
    ensures forall c :: c in r ==> r[c] == m[c]
    ensures forall c :: c != StatusOK ==> Count(r, c) == Count(m, c)
  {
    map c | c in m && c != StatusOK :: m[c]
  }

  /** Sum of the counts over `keys`. */
  ghost function SumOver(m: map<int, nat>, keys: set<int>): nat
    requires keys <= m.Keys
    decreases keys
  {
    if keys == {} then 0
    else
      HasElement(keys);
      var k :| k in keys; m[k] + SumOver(m, keys - {k})
  }

  lemma HasElement(s: set<int>)
    requires s != {}
    ensures exists k :: k in s
  {
    if forall k :: k !in s {
      assert false;
    }
  }

  /** Sum of all the counts of a histogram. */
  ghost function SumValues(m: map<int, nat>): nat
  {
    SumOver(m, m.Keys)
  }

  // ---------------------------------------------------------------------------
  // Step lemmas: what appending one outcome does.

  lemma HistogramStep(h: seq<Outcome>, o: Outcome)
    ensures o.status == None ==> Histogram(h + [o]) == Histogram(h)
    ensures o.status.Some? ==>
      Histogram(h + [o]) == Histogram(h)[o.status.value := Count(Histogram(h), o.status.value) + 1]
  {
  }

  lemma LatenciesStep(h: seq<Outcome>, o: Outcome)
    ensures Latencies(h + [o]) == Latencies(h) + [o.latency]
  {
  }

  /** The i-th pushed latency is that of the i-th recorded outcome. */
  lemma {:induction false} LatencyAt(h: seq<Outcome>, i: nat)
    requires i < |h|
    ensures Latencies(h)[i] == h[i].latency
    decreases |h|
  {
    if i < |h| - 1 {
      LatencyAt(h[..|h| - 1], i);
    }
  }

  lemma CountStep(h: seq<Outcome>, o: Outcome, s: Option<int>)
    ensures CountStatus(h + [o], s) == CountStatus(h, s) + (if o.status == s then 1 else 0)
  {
  }

  /** Each bucket holds exactly the number of responses that carried its code. */
  lemma {:induction false} HistogramCounts(h: seq<Outcome>, c: int)
    ensures Count(Histogram(h), c) == CountStatus(h, Some(c))
    decreases |h|
  {
    if h != [] {
      var p := h[..|h| - 1];
      HistogramStep(p, h[|h| - 1]);
      CountStep(p, h[|h| - 1], Some(c));
      assert p + [h[|h| - 1]] == h;
      HistogramCounts(p, c);
    }
  }

  /** A code has a bucket exactly when some response carried it. */
  lemma {:induction false} HistogramKeys(h: seq<Outcome>, c: int)
    ensures c in Histogram(h) <==> CountStatus(h, Some(c)) > 0
    decreases |h|
  {
    if h != [] {
      var p := h[..|h| - 1];
      HistogramStep(p, h[|h| - 1]);
      CountStep(p, h[|h| - 1], Some(c));
      assert p + [h[|h| - 1]] == h;
      HistogramKeys(p, c);
    }
  }

  /** The success counter and the 200 bucket of the histogram always agree. */
  lemma {:induction false} SuccessesInBucket(h: seq<Outcome>)
    ensures Successes(h) == Count(Histogram(h), StatusOK)
  {
    HistogramCounts(h, StatusOK);
  }

  /** Every outcome is either a response or a connection error. */
  lemma {:induction false} ResponsesAndErrors(h: seq<Outcome>)
    ensures SumValues(Histogram(h)) + ConnectionErrors(h) == |h|
    decreases |h|
  {
    if h != [] {
      var p, o := h[..|h| - 1], h[|h| - 1];
      HistogramStep(p, o);
      CountStep(p, o, None);
      assert p + [o] == h;
      ResponsesAndErrors(p);
      if o.status.Some? {
        SumValuesBump(Histogram(p), o.status.value);
      }
    }
  }

  // ---------------------------------------------------------------------------
  // Sums over a histogram.

  /** The sum does not depend on which key is taken first. */
  lemma {:induction false} SumOverPick(m: map<int, nat>, keys: set<int>, k: int)
    requires keys <= m.Keys && k in keys
    ensures SumOver(m, keys) == m[k] + SumOver(m, keys - {k})
    decreases keys
  {
    var j :| j in keys && SumOver(m, keys) == m[j] + SumOver(m, keys - {j});
    if j != k {
      SumOverPick(m, keys - {j}, k);
      SumOverPick(m, keys - {k}, j);
      assert keys - {j} - {k} == keys - {k} - {j};
    }
  }

  /** Two histograms that agree on `keys` have the same sum over them. */
  lemma {:induction false} SumOverAgree(m1: map<int, nat>, m2: map<int, nat>, keys: set<int>)
    requires keys <= m1.Keys && keys <= m2.Keys
    requires forall k :: k in keys ==> m1[k] == m2[k]
    ensures SumOver(m1, keys) == SumOver(m2, keys)
    decreases keys
  {
    if keys != {} {
      HasElement(keys);
      var k :| k in keys && SumOver(m1, keys) == m1[k] + SumOver(m1, keys - {k});
      SumOverPick(m2, keys, k);
      SumOverAgree(m1, m2, keys - {k});
    }
  }

  /** Incrementing one bucket, new or old, adds exactly one to the total. */
  lemma SumValuesBump(m: map<int, nat>, c: int)
    ensures SumValues(m[c := Count(m, c) + 1]) == SumValues(m) + 1
  {
    var m' := m[c := Count(m, c) + 1];
    SumOverPick(m', m'.Keys, c);
    assert m'.Keys - {c} == m.Keys - {c};
    SumOverAgree(m, m', m.Keys - {c});
    if c in m {
      SumOverPick(m, m.Keys, c);
    } else {
      assert m.Keys - {c} == m.Keys;
    }
  }

  /** The total splits into the 200 bucket and the other codes. */
  lemma OtherCodesSplit(m: map<int, nat>)
    ensures SumValues(m) == Count(m, StatusOK) + SumValues(OtherCodes(m))
  {
    var r := OtherCodes(m);
    assert r.Keys == m.Keys - {StatusOK};
    SumOverAgree(m, r, r.Keys);
    if StatusOK in m {
      SumOverPick(m, m.Keys, StatusOK);
    } else {
      assert r.Keys == m.Keys;
    }
  }

  /**
   * The whole accounting identity of a run: successes, plus responses with any
   * other status, plus connection errors, is the number of recorded outcomes.
   */
  lemma Conservation(h: seq<Outcome>)
    ensures Successes(h) + SumValues(OtherCodes(Histogram(h))) + ConnectionErrors(h) == |h|
  {
    ResponsesAndErrors(h);
    OtherCodesSplit(Histogram(h));
    SuccessesInBucket(h);
  }
}
