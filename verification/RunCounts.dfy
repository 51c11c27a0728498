/** How often a periodic job runs, for arbitrary tick times (scheduler/daemon/job.go and the tick
    loop of scheduler/daemon/scheduler.go). */
module RunCounts {
  import opened Arithmetic
  import opened JobQueue

  function Progressed(period: int, init: int, ticks: seq<int>): Progress {
    if ticks == [] then Progress(init, 0)
    else TickProgress(period, Progressed(period, init, ticks[..|ticks| - 1]), ticks[|ticks| - 1])
  }

  /** How many check times lie at or before t: init, init + period, … */
  function Elapsed(period: int, init: int, t: int): nat
    requires period > 0
  {
    if t < init then 0 else (t - init) / period + 1
  }

  predicate NonDecreasing(ts: seq<int>) {
    forall i, j :: 0 <= i <= j < |ts| ==> ts[i] <= ts[j]
  }

  /** Periodic times do not drift: the check time is always init + runs * period. */
  lemma {:induction false} NoDrift(period: int, init: int, ticks: seq<int>)
    ensures var p := Progressed(period, init, ticks); p.checkTime == init + p.runs * period
  {
    if ticks != [] {
      NoDrift(period, init, ticks[..|ticks| - 1]);
      var p := Progressed(period, init, ticks[..|ticks| - 1]);
      assert (p.runs + 1) * period == p.runs * period + period;
    }
  }

  lemma DueMeansBehind(period: int, init: int, runs: nat, t: int)
    requires period > 0
    ensures init + runs * period <= t <==> runs < Elapsed(period, init, t)
  {
    TimesMonotone(0, runs, period);
    if t >= init {
      var q := (t - init) / period;
      Quotient(t - init, period, q);
      if runs <= q {
        TimesMonotone(runs, q, period);
      } else {
        TimesMonotone(q + 1, runs, period);
      }
    }
  }

  lemma ElapsedMonotone(period: int, init: int, t: int, t': int)
    requires period > 0 && t <= t'
    ensures Elapsed(period, init, t) <= Elapsed(period, init, t')
  {
    if Elapsed(period, init, t) > 0 {
      var n := Elapsed(period, init, t) - 1;
      DueMeansBehind(period, init, n, t);
      DueMeansBehind(period, init, n, t');
    }
  }

  /** One tick, one run: the count rises by at most one per tick and never passes the number of
      elapsed check times. */
  lemma {:induction false} RunRecurrence(period: int, init: int, ticks: seq<int>)
    requires period > 0 && ticks != [] && NonDecreasing(ticks)
    ensures var n, t := Progressed(period, init, ticks[..|ticks| - 1]).runs, ticks[|ticks| - 1];
            Progressed(period, init, ticks).runs ==
            if n + 1 <= Elapsed(period, init, t) then n + 1 else Elapsed(period, init, t)
  {
    var front, t := ticks[..|ticks| - 1], ticks[|ticks| - 1];
    var p := Progressed(period, init, front);
    NoDrift(period, init, front);
    DueMeansBehind(period, init, p.runs, t);
    if front != [] {
      RunRecurrence(period, init, front);
      ElapsedMonotone(period, init, front[|front| - 1], t);
    }
  }

  /** Number of runs that the (k-th tick, k = 0 for the start) leaves possible at the end. */
  function Allowance(period: int, init: int, ticks: seq<int>, k: nat): nat
    requires period > 0 && k <= |ticks|
  {
    |ticks| - k + (if k == 0 then 0 else Elapsed(period, init, ticks[k - 1]))
  }

  /** n is the least, over all k, of the check times elapsed by tick k plus one run for every later
      tick. */
  ghost predicate IsRunCount(period: int, init: int, ticks: seq<int>, n: nat)
    requires period > 0
  {
    && (forall k :: 0 <= k <= |ticks| ==> n <= Allowance(period, init, ticks, k))
    && exists k :: 0 <= k <= |ticks| && n == Allowance(period, init, ticks, k)
  }

  /** The exact run count for any tick times. */
  lemma {:induction false} ExactRunCount(period: int, init: int, ticks: seq<int>)
    requires period > 0 && NonDecreasing(ticks)
    ensures IsRunCount(period, init, ticks, Progressed(period, init, ticks).runs)
  {
    if ticks == [] {
      assert Progressed(period, init, ticks).runs == Allowance(period, init, ticks, 0);
    } else {
      var front := ticks[..|ticks| - 1];
      ExactRunCount(period, init, front);
      RunRecurrence(period, init, ticks);
      forall k | 0 <= k <= |front| ensures Allowance(period, init, ticks, k) == Allowance(period, init, front, k) + 1 {
      }
      var n, m := Progressed(period, init, front).runs, Progressed(period, init, ticks).runs;
      if m == n + 1 {
        var k :| 0 <= k <= |front| && n == Allowance(period, init, front, k);
        assert m == Allowance(period, init, ticks, k);
      } else {
        assert m == Allowance(period, init, ticks, |ticks|);
      }
    }
  }

  /** Every elapsed check time has been run, after each tick. */
  ghost predicate AlwaysCaughtUp(period: int, init: int, ticks: seq<int>)
    requires period > 0
  {
    forall n :: 0 < n <= |ticks| ==> Progressed(period, init, ticks[..n]).runs == Elapsed(period, init, ticks[n - 1])
  }

  /** Between tick n - 1 (or the start) and tick n at most one check time elapses. */
  predicate PassesAtMostOne(period: int, init: int, ticks: seq<int>, n: nat)
    requires period > 0 && 0 < n <= |ticks|
  {
    Elapsed(period, init, ticks[n - 1]) <= (if n == 1 then 0 else Elapsed(period, init, ticks[n - 2])) + 1
  }

  /** No tick passes two check times. */
  ghost predicate NoTickSkips(period: int, init: int, ticks: seq<int>)
    requires period > 0
  {
    forall n :: 0 < n <= |ticks| ==> PassesAtMostOne(period, init, ticks, n)
  }

  lemma {:induction false} CaughtUpIfNoSkip(period: int, init: int, ticks: seq<int>, n: nat)
    requires period > 0 && NonDecreasing(ticks) && NoTickSkips(period, init, ticks) && 0 < n <= |ticks|
    ensures Progressed(period, init, ticks[..n]).runs == Elapsed(period, init, ticks[n - 1])
  {
    var t := ticks[..n];
    assert t[..n - 1] == ticks[..n - 1];
    RunRecurrence(period, init, t);
    assert PassesAtMostOne(period, init, ticks, n);
    if n > 1 {
      CaughtUpIfNoSkip(period, init, ticks, n - 1);
      ElapsedMonotone(period, init, ticks[n - 2], ticks[n - 1]);
    }
  }

  /** A job keeps up with its period at every tick exactly when no tick passes two check times. */
  lemma CaughtUpIff(period: int, init: int, ticks: seq<int>)
    requires period > 0 && NonDecreasing(ticks)
    ensures AlwaysCaughtUp(period, init, ticks) <==> NoTickSkips(period, init, ticks)
  {
    if NoTickSkips(period, init, ticks) {
      forall n | 0 < n <= |ticks| ensures Progressed(period, init, ticks[..n]).runs == Elapsed(period, init, ticks[n - 1]) {
        CaughtUpIfNoSkip(period, init, ticks, n);
      }
    }
    if AlwaysCaughtUp(period, init, ticks) {
      forall n | 0 < n <= |ticks| ensures PassesAtMostOne(period, init, ticks, n) {
        var t := ticks[..n];
        RunRecurrence(period, init, t);
        assert t[..n - 1] == ticks[..n - 1];
        if n > 1 {
          assert Progressed(period, init, ticks[..n - 1]).runs == Elapsed(period, init, ticks[n - 2]);
        }
      }
    }
  }

  /** A tick at most a period after the one before passes at most one check time. */
  lemma OnePeriodPassesOne(period: int, init: int, t: int, t': int)
    requires period > 0 && t' <= t + period
    ensures Elapsed(period, init, t') <= Elapsed(period, init, t) + 1
  {
    var n := Elapsed(period, init, t);
    DueMeansBehind(period, init, n, t);
    DueMeansBehind(period, init, n + 1, t');
    OneMoreTimes(n, period);
  }

  lemma ElapsedSince(period: int, init: int, t: int)
    requires period > 0 && init <= t
    ensures Elapsed(period, init, t) == (t - init) / period + 1
  {
  }

  lemma RegularTicksSkipNothing(period: int, init: int, ticks: seq<int>)
    requires period > 0 && ticks != [] && ticks[0] < init + period
    requires forall i :: 0 < i < |ticks| ==> ticks[i] - ticks[i - 1] <= period
    ensures NoTickSkips(period, init, ticks)
  {
    hide Elapsed;
    FirstTickPassesOne(period, init, ticks[0]);
    forall n | 0 < n <= |ticks| ensures PassesAtMostOne(period, init, ticks, n) {
      if n > 1 {
        OnePeriodPassesOne(period, init, ticks[n - 2], ticks[n - 1]);
      }
    }
  }

  /** In particular when the first tick comes less than a period after the start and later ticks
      at most a period apart: after the tick at t, runs == floor((t - init) / period) + 1. */
  lemma RegularTicksKeepUp(period: int, init: int, ticks: seq<int>)
    requires period > 0 && ticks != [] && NonDecreasing(ticks)
    requires init <= ticks[0] < init + period
    requires forall i :: 0 < i < |ticks| ==> ticks[i] - ticks[i - 1] <= period
    ensures Progressed(period, init, ticks).runs == (ticks[|ticks| - 1] - init) / period + 1
  {
    RegularTicksSkipNothing(period, init, ticks);
    hide NoTickSkips, Progressed, Elapsed;
    CaughtUpIfNoSkip(period, init, ticks, |ticks|);
    assert ticks[..|ticks|] == ticks && ticks[0] <= ticks[|ticks| - 1];
    ElapsedSince(period, init, ticks[|ticks| - 1]);
  }

  lemma FirstTickPassesOne(period: int, init: int, t: int)
    requires period > 0 && t < init + period
    ensures Elapsed(period, init, t) <= 1
  {
    DueMeansBehind(period, init, 1, t);
  }
}
