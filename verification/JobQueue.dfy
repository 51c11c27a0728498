/** Jobs and the time-ordered job queue (scheduler/daemon/job.go, scheduler/daemon/queue.go).
    The queue's linked list is a sequence field; its lock makes each method one step. */
module JobQueue {
  import opened Options

  const DEFAULT_PERIOD: int := 10_000_000_000

  datatype TaskConfig = TaskConfig(ident: string, period: int) {
    /** A period that is not positive reads as the default. */
    function Period(): (p: int)
      ensures p > 0 && (period > 0 ==> p == period)
    {
      if period > 0 then period else DEFAULT_PERIOD
    }
  }

  /** A task with its configuration and the global one it was given. */
  datatype Task = Task(config: TaskConfig, globalConfig: int)

  /** What one scheduler tick does to a job's check time and run count. */
  datatype Progress = Progress(checkTime: int, runs: nat)

  function TickProgress(period: int, p: Progress, now: int): Progress {
    if p.checkTime <= now then Progress(p.checkTime + period, p.runs + 1) else p
  }

  class IntervalJob {
    var task: Task
    var checkTime: int
    var runs: nat
    var stops: nat

    /** NewJob followed by Init. */
    constructor (task: Task, now: int)
      ensures this.task == task && checkTime == now && runs == 0 && stops == 0
    {
      this.task, checkTime, runs, stops := task, now, 0, 0;
    }

    method Run()
      modifies this`runs
      ensures runs == old(runs) + 1
    {
      runs := runs + 1;
    }

    method Next()
      modifies this`checkTime
      ensures task.config.period > 0 ==> checkTime == old(checkTime) + task.config.period
      ensures task.config.period <= 0 ==> checkTime == old(checkTime) + 10_000_000_000
    {
      checkTime := checkTime + task.config.Period();
    }

    /** Cancels the job's context and stops its task. */
    method Stop()
      modifies this`stops
      ensures stops == old(stops) + 1
    {
      stops := stops + 1;
    }
  }

  ghost predicate Sorted(js: seq<IntervalJob>)
    reads js
  {
    forall i, j :: 0 <= i <= j < |js| ==> js[i].checkTime <= js[j].checkTime
  }

  /** No job occurs twice. */
  ghost predicate Distinct<T>(s: seq<T>) {
    forall x :: x in s ==> multiset(s)[x] == 1
  }

  lemma DistinctIndices<T>(s: seq<T>, i: nat, j: nat)
    requires Distinct(s) && i < j < |s|
    ensures s[i] != s[j]
  {
    assert s == s[..j] + s[j..];
    assert multiset(s) == multiset(s[..j]) + multiset(s[j..]);
    assert s[..j][i] in multiset(s[..j]) && s[j..][0] in multiset(s[j..]);
    assert s[i] in s;
  }

  lemma DistinctSplit<T>(s: seq<T>, a: seq<T>, b: seq<T>)
    requires Distinct(s) && s == a + b
    ensures Distinct(a) && Distinct(b) && forall x :: x in a ==> x !in b
  {
    assert multiset(s) == multiset(a) + multiset(b);
    forall x | x in a || x in b ensures multiset(a)[x] + multiset(b)[x] == 1 {
      assert x in s;
    }
    forall x | x in a ensures x !in b && multiset(a)[x] == 1 {
      assert multiset(a)[x] >= 1;
    }
    forall x | x in b ensures multiset(b)[x] == 1 {
      assert multiset(b)[x] >= 1;
    }
  }

  /** The list's Sort by JobTimeComparator: a sorted permutation, ties in any order. */
  method SortJobs(js: seq<IntervalJob>) returns (r: seq<IntervalJob>)
    ensures Sorted(r) && multiset(r) == multiset(js)
  {
    r := [];
    for n := 0 to |js|
      invariant Sorted(r) && multiset(r) == multiset(js[..n])
    {
      r := Insert(r, js[n]);
      assert js[..n + 1] == js[..n] + [js[n]];
    }
    assert js[..|js|] == js;
  }

  method Insert(s: seq<IntervalJob>, x: IntervalJob) returns (r: seq<IntervalJob>)
    requires Sorted(s)
    ensures Sorted(r) && multiset(r) == multiset(s) + multiset{x}
  {
    var i := 0;
    while i < |s| && s[i].checkTime <= x.checkTime
      invariant 0 <= i <= |s|
      invariant forall j :: 0 <= j < i ==> s[j].checkTime <= x.checkTime
    {
      i := i + 1;
    }
    InsertAt(s, x, i);
    r := s[..i] + [x] + s[i..];
  }

  lemma InsertAt(s: seq<IntervalJob>, x: IntervalJob, i: nat)
    requires Sorted(s) && i <= |s|
    requires forall j :: 0 <= j < i ==> s[j].checkTime <= x.checkTime
    requires i < |s| ==> x.checkTime <= s[i].checkTime
    ensures Sorted(s[..i] + [x] + s[i..])
    ensures multiset(s[..i] + [x] + s[i..]) == multiset(s) + multiset{x}
  {
    InsertSorted(s, x, i);
    assert multiset(s) == multiset(s[..i]) + multiset(s[i..]) by { assert s == s[..i] + s[i..]; }
  }

  lemma InsertSorted(s: seq<IntervalJob>, x: IntervalJob, i: nat)
    requires Sorted(s) && i <= |s|
    requires forall j :: 0 <= j < i ==> s[j].checkTime <= x.checkTime
    requires i < |s| ==> x.checkTime <= s[i].checkTime
    ensures Sorted(s[..i] + [x] + s[i..])
  {
  }

  /** In a sorted list, what follows a job that is not due is not due either. */
  lemma SplitSorted(due: seq<IntervalJob>, rest: seq<IntervalJob>, now: int)
    requires Sorted(due + rest) && (rest != [] ==> rest[0].checkTime > now)
    ensures Sorted(due) && Sorted(rest) && forall j :: j in rest ==> j.checkTime > now
  {
    var all := due + rest;
    assert forall k :: 0 <= k < |due| ==> due[k] == all[k];
    assert forall k :: 0 <= k < |rest| ==> rest[k] == all[|due| + k];
  }

  class LockQueue {
    var jobs: seq<IntervalJob>

    constructor ()
      ensures jobs == []
    {
      jobs := [];
    }

    /** Appends and re-sorts. */
    method Push(js: seq<IntervalJob>)
      modifies this
      ensures Sorted(jobs) && multiset(jobs) == multiset(old(jobs)) + multiset(js)
    {
      jobs := SortJobs(jobs + js);
    }

    method First() returns (r: Option<IntervalJob>)
      ensures r == if jobs == [] then None else Some(jobs[0])
    {
      r := if |jobs| == 0 then None else Some(jobs[0]);
    }

    method Pop() returns (r: Option<IntervalJob>)
      modifies this
      ensures old(jobs) == [] ==> r == None && jobs == []
      ensures old(jobs) != [] ==> r == Some(old(jobs)[0]) && [old(jobs)[0]] + jobs == old(jobs)
    {
      if |jobs| == 0 {
        return None;
      }
      r := Some(jobs[0]);
      jobs := jobs[1..];
    }

    method PopAll() returns (popped: seq<IntervalJob>)
      modifies this
      ensures popped == old(jobs) && jobs == []
    {
      popped := [];
      for i := 0 to |jobs|
        invariant popped == jobs[..i] && jobs == old(jobs)
      {
        popped := popped + [jobs[i]];
      }
      jobs := [];
    }

    /** The longest prefix of jobs that are due; on a sorted queue, exactly the due jobs. */
    method PopUntil(now: int) returns (popped: seq<IntervalJob>)
      modifies this
      ensures popped + jobs == old(jobs)
      ensures forall j :: j in popped ==> j.checkTime <= now
      ensures jobs != [] ==> jobs[0].checkTime > now
      ensures old(Sorted(jobs)) ==> Sorted(jobs) && Sorted(popped) && forall j :: j in jobs ==> j.checkTime > now
    {
      hide Sorted;
      popped := [];
      var i := 0;
      while i < |jobs|
        invariant 0 <= i <= |jobs| && jobs == old(jobs) && popped == jobs[..i]
        invariant forall j :: j in popped ==> j.checkTime <= now
      {
        if jobs[i].checkTime > now {
          break;
        }
        popped := popped + [jobs[i]];
        i := i + 1;
      }
      for n := 0 to |popped|
        invariant jobs == old(jobs)[n..]
      {
        jobs := jobs[1..];
      }
      assert old(jobs) == popped + jobs;
      if Sorted(old(jobs)) {
        SplitSorted(popped, jobs, now);
      }
    }
  }
}
