/** The ICMP probe loop and its aggregation (tasks/ping/icmp.go, tasks/ping/result.go). Durations are
    nanoseconds; the reported figures are exact fractions. */
module Ping {
  import opened Options
  import opened Arithmetic

  const DEFAULT_COUNT: nat := 2
  const MILLISECOND: real := 1000000.0

  /** How one echo request went. */
  datatype Probe = NotBuilt | NotSent | NoReply | Replied(rtt: nat)

  function SampleOf(p: Probe): int {
    if p.Replied? then p.rtt else -1
  }

  /** How a whole run of probes goes: each probe's outcome, and whether the context has ended at
      the top of a turn or ends in the pause after it. */
  datatype Course = Course(interval: int, probes: nat -> Probe, deadAtTop: nat -> bool, diesInPause: nat -> bool)

  /** The context ends in the pause that follows an answered probe. */
  predicate PauseEnds(c: Course, k: nat) {
    c.probes(k).Replied? && c.interval > 0 && c.diesInPause(k)
  }

  /** Probe k is attempted: the context is alive at the top of every turn up to k, and did not end
      during a pause before it. */
  ghost predicate Attempted(c: Course, k: nat) {
    !c.deadAtTop(k) && (k > 0 ==> Attempted(c, k - 1) && !PauseEnds(c, k - 1))
  }

  ghost function SampleAt(c: Course, k: nat): int {
    if Attempted(c, k) then SampleOf(c.probes(k)) else -1
  }

  ghost function Samples(c: Course, n: nat): seq<int> {
    seq(n, k requires 0 <= k < n => SampleAt(c, k))
  }

  function SampleCount(count: int): nat { if count <= 0 then DEFAULT_COUNT else count }

  /** On every way out of the loop each slot holds its probe's round-trip time, or -1 when it was
      not attempted or not answered; no slot keeps its initial 0. */
  method CollectSamples(count: int, c: Course) returns (samples: array<int>)
    ensures fresh(samples) && samples[..] == Samples(c, SampleCount(count))
    ensures samples.Length == if count <= 0 then 2 else count
    ensures forall k :: 0 <= k < samples.Length ==>
              samples[k] == if Attempted(c, k) && c.probes(k).Replied? then c.probes(k).rtt else -1
  {
    hide Attempted, SampleAt;
    var n := SampleCount(count);
    samples := new int[n](_ => 0);
    var seqNo: nat := 0;
    while seqNo < n
      invariant seqNo <= n + 1
      invariant forall k :: 0 <= k < n && k < seqNo ==> samples[k] == SampleAt(c, k)
      invariant 0 < seqNo < n ==> Attempted(c, seqNo - 1) && !PauseEnds(c, seqNo - 1)
      decreases n - seqNo
    {
      if c.deadAtTop(seqNo) {
        FillLost(samples, seqNo);
        DeadNow(c, seqNo);
        NothingFrom(c, seqNo, n);
        break;
      }
      AttemptedNow(c, seqNo);
      samples[seqNo] := SampleOf(c.probes(seqNo));
      if c.probes(seqNo).Replied? && c.interval > 0 && seqNo + 1 < n && c.diesInPause(seqNo) {
        FillLost(samples, seqNo + 1);
        DeadNow(c, seqNo + 1);
        NothingFrom(c, seqNo + 1, n);
        seqNo := n;
      }
      seqNo := seqNo + 1;
    }
    SamplesSpelled(c, n);
  }

  lemma SamplesSpelled(c: Course, n: nat)
    ensures forall k :: 0 <= k < n ==> SampleAt(c, k) == if Attempted(c, k) && c.probes(k).Replied? then c.probes(k).rtt else -1
  {
    hide Attempted;
  }

  /** A probe is attempted when the context is alive at the top of its turn and of every earlier
      one, and no pause before it is cut short. */
  lemma {:induction false} AttemptedIff(c: Course, k: nat)
    ensures Attempted(c, k) <==>
              && (forall i: nat :: i <= k ==> !c.deadAtTop(i))
              && (forall i: nat :: i < k && c.probes(i).Replied? && c.interval > 0 ==> !c.diesInPause(i))
  {
    if k > 0 {
      AttemptedIff(c, k - 1);
    }
  }

  lemma AttemptedNow(c: Course, k: nat)
    requires !c.deadAtTop(k) && (k > 0 ==> Attempted(c, k - 1) && !PauseEnds(c, k - 1))
    ensures Attempted(c, k) && SampleAt(c, k) == SampleOf(c.probes(k))
  {
  }

  lemma DeadNow(c: Course, k: nat)
    requires c.deadAtTop(k) || (k > 0 && PauseEnds(c, k - 1))
    ensures !Attempted(c, k)
  {
  }

  lemma {:induction false} NothingFrom(c: Course, i: nat, n: nat)
    requires !Attempted(c, i)
    ensures forall k :: i <= k < n ==> !Attempted(c, k) && SampleAt(c, k) == -1
    decreases n - i
  {
    if i < n {
      assert !Attempted(c, i + 1);
      NothingFrom(c, i + 1, n);
    }
  }

  method FillLost(samples: array<int>, from: nat)
    modifies samples
    ensures forall k :: 0 <= k < samples.Length ==> samples[k] == if k < from then old(samples[k]) else -1
  {
    var j := from;
    while j < samples.Length
      invariant from <= j
      invariant forall k :: 0 <= k < samples.Length ==> samples[k] == if from <= k < j then -1 else old(samples[k])
    {
      samples[j] := -1;
      j := j + 1;
    }
  }

  // ----- aggregation -----

  datatype Metrics = Metrics(sent: nat, received: nat, loss: real, available: real, minMs: real, avgMs: real, maxMs: real)

  /** The samples that are not losses. */
  function Received(samples: seq<int>): seq<int> {
    if samples == [] then []
    else Received(samples[..|samples| - 1]) + (if samples[|samples| - 1] < 0 then [] else [samples[|samples| - 1]])
  }

  function Sum(s: seq<int>): int {
    if s == [] then 0 else Sum(s[..|s| - 1]) + s[|s| - 1]
  }

  ghost predicate IsMinimum(m: int, s: seq<int>) { m in s && forall x :: x in s ==> m <= x }

  ghost predicate IsMaximum(m: int, s: seq<int>) { m in s && forall x :: x in s ==> x <= m }

  function Ms(ns: int): real { ns as real / MILLISECOND }

  /** The report in terms of the received samples: counts, rates that add up to one, the true
      minimum and maximum, and the truncated mean, which lies between them. */
  ghost predicate Reports(m: Metrics, samples: seq<int>) {
    var r := Received(samples);
    && m.sent == |samples| && m.received == |r| && m.sent > 0 && m.received <= m.sent
    && m.available == m.received as real / m.sent as real && m.loss + m.available == 1.0
    && if r == [] then m.minMs == m.avgMs == m.maxMs == 0.0
       else
         && (exists lo :: IsMinimum(lo, r) && m.minMs == Ms(lo))
         && (exists hi :: IsMaximum(hi, r) && m.maxMs == Ms(hi))
         && m.avgMs == Ms(Sum(r) / |r|) && m.minMs <= m.avgMs <= m.maxMs
  }

  lemma SumAppend(s: seq<int>, x: int)
    ensures Sum(s + [x]) == Sum(s) + x
  {
  }

  /** One more received sample keeps the running minimum and maximum right. */
  lemma ExtremesAppend(s: seq<int>, x: int, lo: int, hi: int)
    requires s != [] ==> IsMinimum(lo, s) && IsMaximum(hi, s)
    ensures IsMinimum(if s == [] || x < lo then x else lo, s + [x])
    ensures IsMaximum(if s == [] || x > hi then x else hi, s + [x])
  {
  }

  lemma ReceivedStep(samples: seq<int>, i: nat)
    requires i < |samples|
    ensures Received(samples[..i + 1]) == if samples[i] < 0 then Received(samples[..i]) else Received(samples[..i]) + [samples[i]]
  {
    assert samples[..i + 1][..i] == samples[..i];
  }

  /** The running figures after the received samples r. */
  ghost predicate Tallied(r: seq<int>, received: int, total: int, minRTT: int, maxRTT: int) {
    && received == |r| && total == Sum(r)
    && (r == [] ==> minRTT == -1 && maxRTT == 0)
    && (r != [] ==> IsMinimum(minRTT, r) && IsMaximum(maxRTT, r) && minRTT >= 0)
  }

  lemma TallyOne(r: seq<int>, received: int, total: int, minRTT: int, maxRTT: int, rtt: int)
    requires Tallied(r, received, total, minRTT, maxRTT) && rtt >= 0
    ensures Tallied(r + [rtt], received + 1, total + rtt,
                    if minRTT < 0 || rtt < minRTT then rtt else minRTT, if rtt > maxRTT then rtt else maxRTT)
  {
    SumAppend(r, rtt);
    ExtremesAppend(r, rtt, minRTT, maxRTT);
  }

  method Tally(samples: seq<int>) returns (received: nat, total: int, minRTT: int, maxRTT: int)
    ensures received <= |samples| && Tallied(Received(samples), received, total, minRTT, maxRTT)
  {
    hide Received, Tallied;
    received, total, minRTT, maxRTT := 0, 0, -1, 0;
    assert samples[..0] == [] && Received([]) == [] && Tallied([], 0, 0, -1, 0) by { NothingTallied(); }
    for i := 0 to |samples|
      invariant received <= i && Tallied(Received(samples[..i]), received, total, minRTT, maxRTT)
    {
      var rtt := samples[i];
      ReceivedStep(samples, i);
      if rtt >= 0 {
        TallyOne(Received(samples[..i]), received, total, minRTT, maxRTT, rtt);
        received := received + 1;
        total := total + rtt;
        minRTT := if minRTT < 0 || rtt < minRTT then rtt else minRTT;
        maxRTT := if rtt > maxRTT then rtt else maxRTT;
      }
    }
    assert samples[..|samples|] == samples;
  }

  lemma NothingTallied()
    ensures Received([]) == [] && Tallied([], 0, 0, -1, 0)
  {
  }

  method AggregateResults(samples: seq<int>) returns (metrics: Option<Metrics>)
    ensures metrics.None? <==> samples == []
    ensures metrics.Some? ==> Reports(metrics.value, samples)
  {
    hide Received, Sum, IsMinimum, IsMaximum;
    if |samples| == 0 {
      return None;
    }
    var sent := |samples|;
    var received, total, minRTT, maxRTT := Tally(samples);
    RatesAddUp(sent, received);
    var loss, available := (sent as real - received as real) / sent as real, received as real / sent as real;
    if received == 0 {
      return Some(Metrics(sent, 0, loss, available, 0.0, 0.0, 0.0));
    }
    MeanBetween(Received(samples), minRTT, maxRTT);
    hide Ms;
    metrics := Some(Metrics(sent, received, loss, available, Ms(minRTT), Ms(total / received), Ms(maxRTT)));
  }

  lemma RatesAddUp(sent: nat, received: nat)
    requires received <= sent && sent > 0
    ensures (sent as real - received as real) / sent as real + received as real / sent as real == 1.0
  {
  }

  lemma {:induction false} SumBounds(s: seq<int>, lo: int, hi: int)
    requires forall x :: x in s ==> lo <= x <= hi
    ensures |s| * lo <= Sum(s) <= |s| * hi
  {
    if s != [] {
      var front, x := s[..|s| - 1], s[|s| - 1];
      assert forall y :: y in front ==> y in s;
      assert x in s;
      SumBounds(front, lo, hi);
      OneMoreTimes(|front|, lo);
      OneMoreTimes(|front|, hi);
    }
  }

  lemma QuotientBetween(x: int, n: nat, lo: int, hi: int)
    requires n > 0 && n * lo <= x <= n * hi
    ensures lo <= x / n <= hi
  {
    var q := x / n;
    Quotient(x, n, q);
    if q < lo {
      TimesMonotone(q + 1, lo, n);
    } else if q > hi {
      TimesMonotone(hi + 1, q, n);
    }
  }

  lemma MsMonotone(x: int, y: int)
    requires x <= y
    ensures Ms(x) <= Ms(y)
  {
  }

  lemma MeanBetween(s: seq<int>, lo: int, hi: int)
    requires IsMinimum(lo, s) && IsMaximum(hi, s)
    ensures s != [] && lo <= Sum(s) / |s| <= hi
    ensures Ms(lo) <= Ms(Sum(s) / |s|) <= Ms(hi)
  {
    SumBounds(s, lo, hi);
    QuotientBetween(Sum(s), |s|, lo, hi);
    hide Sum, Ms, IsMinimum, IsMaximum;
    MsMonotone(lo, Sum(s) / |s|);
    MsMonotone(Sum(s) / |s|, hi);
  }

  /** The probes before n that were attempted and answered. */
  ghost function Answered(c: Course, n: nat): set<nat> {
    set k: nat | k < n && Attempted(c, k) && c.probes(k).Replied?
  }

  lemma AnsweredStep(c: Course, n: nat)
    ensures |Answered(c, n + 1)| == |Answered(c, n)| + (if Attempted(c, n) && c.probes(n).Replied? then 1 else 0)
  {
    hide Attempted;
    var before, after := Answered(c, n), Answered(c, n + 1);
    var last := Attempted(c, n) && c.probes(n).Replied?;
    assert after == if last then before + {n} else before;
  }

  /** packets_received counts exactly those. */
  lemma {:induction false} ReceivedCountsReplies(c: Course, n: nat)
    ensures |Received(Samples(c, n))| == |Answered(c, n)|
  {
    hide Attempted;
    if n > 0 {
      ReceivedCountsReplies(c, n - 1);
      AnsweredStep(c, n - 1);
      assert Samples(c, n)[..n - 1] == Samples(c, n - 1);
    }
  }

  /** A probe that could not start reports its error and no figures. */
  datatype Result = Failed(error: Setup) | Done(success: bool, metrics: Metrics)
  datatype Setup = Ready | NoAddress | NoSocket

  /** The whole probe: unresolved names and refused sockets fail; otherwise the report is that of
      the samples, packets_received is the number of probes that were attempted and answered, and
      the probe succeeds when there is one. */
  method RunICMPBackend(setup: Setup, count: int, c: Course) returns (result: Result)
    ensures setup != Ready <==> result.Failed?
    ensures result.Failed? ==> result.error == setup
    ensures result.Done? ==>
              && Reports(result.metrics, Samples(c, SampleCount(count)))
              && result.metrics.sent == (if count <= 0 then 2 else count)
              && result.metrics.received == |Answered(c, result.metrics.sent)|
              && (result.success <==> Answered(c, result.metrics.sent) != {})
              && (result.success ==> RoundTrips(result.metrics, c))
  {
    hide Reports, Attempted, SampleAt, Received;
    if setup != Ready {
      return Failed(setup);
    }
    var samples := CollectSamples(count, c);
    var metrics := AggregateResults(samples[..]);
    ReceivedCountsReplies(c, SampleCount(count));
    ReportedCount(metrics.value, samples[..]);
    if metrics.value.received > 0 {
      ReportsRoundTrips(metrics.value, c, SampleCount(count));
    }
    result := Done(metrics.value.received > 0, metrics.value);
  }

  /** The extremes are round-trip times of answered probes, in milliseconds, and no answered probe
      lies outside them. */
  ghost predicate RoundTrips(m: Metrics, c: Course) {
    && (exists k :: k in Answered(c, m.sent) && m.minMs == c.probes(k).rtt as real / 1000000.0)
    && (exists k :: k in Answered(c, m.sent) && m.maxMs == c.probes(k).rtt as real / 1000000.0)
    && forall k :: k in Answered(c, m.sent) ==> m.minMs <= c.probes(k).rtt as real / 1000000.0 <= m.maxMs
  }

  lemma {:induction false} ReceivedAreAnswers(c: Course, n: nat)
    ensures forall x :: x in Received(Samples(c, n)) ==> exists k :: k in Answered(c, n) && c.probes(k).rtt == x
    ensures forall k :: k in Answered(c, n) ==> c.probes(k).rtt in Received(Samples(c, n))
  {
    hide Attempted;
    if n > 0 {
      ReceivedAreAnswers(c, n - 1);
      assert Samples(c, n)[..n - 1] == Samples(c, n - 1);
      assert forall k :: k in Answered(c, n - 1) ==> k in Answered(c, n);
    }
  }

  lemma ReportsRoundTrips(m: Metrics, c: Course, n: nat)
    requires Reports(m, Samples(c, n)) && m.received > 0
    ensures RoundTrips(m, c)
  {
    hide Attempted, Sum, Received;
    ReceivedAreAnswers(c, n);
    var r := Received(Samples(c, n));
    var lo :| IsMinimum(lo, r) && m.minMs == Ms(lo);
    var hi :| IsMaximum(hi, r) && m.maxMs == Ms(hi);
    forall k | k in Answered(c, n) ensures m.minMs <= c.probes(k).rtt as real / 1000000.0 <= m.maxMs {
      MsMonotone(lo, c.probes(k).rtt);
      MsMonotone(c.probes(k).rtt, hi);
    }
  }

  lemma ReportedCount(m: Metrics, samples: seq<int>)
    requires Reports(m, samples)
    ensures m.received == |Received(samples)| && m.sent == |samples|
  {
  }
}
