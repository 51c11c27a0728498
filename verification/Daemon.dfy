/** The daemon scheduler (scheduler/daemon/scheduler.go) one operation at a time: a tick of the
    loop, and the hot swap of the task list. ReloadProtocol treats their interleavings. */
module Daemon {
  import opened Options
  import opened Strings
  import opened JobQueue
  import opened RunCounts
  import opened Reconcile

  // ----- lists without repetition -----

  lemma DistinctPermute<T>(a: seq<T>, b: seq<T>)
    requires multiset(a) == multiset(b) && Distinct(b)
    ensures Distinct(a) && Elements(a) == Elements(b)
  {
  }

  lemma DistinctPush<T>(a: seq<T>, b: seq<T>, x: T)
    requires multiset(a) == multiset(b) + multiset([x]) && Distinct(b) && x !in b
    ensures Distinct(a) && Elements(a) == Elements(b) + {x}
  {
  }

  lemma OthersDiffer<T>(s: seq<T>, n: nat)
    requires Distinct(s) && n < |s|
    ensures forall k :: 0 <= k < |s| && k != n ==> s[k] != s[n]
  {
    forall k | 0 <= k < |s| && k != n ensures s[k] != s[n] {
      if k < n { DistinctIndices(s, k, n); } else { DistinctIndices(s, n, k); }
    }
  }

  lemma AddedValue<K, V>(m: map<K, V>, k: K, v: V)
    requires k !in m
    ensures m[k := v].Values == m.Values + {v}
  {
    var m' := m[k := v];
    assert m'[k] == v;
    forall x | x in m.Values ensures x in m'.Values {
      var y :| y in m && m[y] == x;
      assert m'[y] == x;
    }
  }

  // ----- which old jobs go on -----

  ghost function Idents(js: seq<IntervalJob>): seq<string>
    reads js
  {
    seq(|js|, i requires 0 <= i < |js| reads js => js[i].task.config.ident)
  }

  ghost function Stops(js: seq<IntervalJob>): seq<nat>
    reads js
  {
    seq(|js|, i requires 0 <= i < |js| reads js => js[i].stops)
  }

  ghost function KeptJobs(js: seq<IntervalJob>, idents: seq<string>, wanted: set<string>, n: nat): set<IntervalJob>
    requires n <= |js| == |idents|
  {
    set i | 0 <= i < n && Keeps(idents, wanted, i) :: js[i]
  }

  lemma KeptStep(js: seq<IntervalJob>, idents: seq<string>, wanted: set<string>, n: nat)
    requires n < |js| == |idents|
    ensures KeptJobs(js, idents, wanted, n + 1) ==
            KeptJobs(js, idents, wanted, n) + (if Keeps(idents, wanted, n) then {js[n]} else {})
  {
  }

  lemma KeptAreEarlier(js: seq<IntervalJob>, idents: seq<string>, wanted: set<string>, n: nat)
    requires Distinct(js) && n < |js| == |idents|
    ensures js[n] !in KeptJobs(js, idents, wanted, n)
    ensures forall k :: 0 <= k < |js| && k != n ==> js[k] != js[n]
  {
    OthersDiffer(js, n);
  }

  lemma KeptInQueue(js: seq<IntervalJob>, idents: seq<string>, wanted: set<string>, i: nat)
    requires Distinct(js) && i < |js| == |idents|
    ensures js[i] in KeptJobs(js, idents, wanted, |js|) <==> Keeps(idents, wanted, i)
  {
    OthersDiffer(js, i);
  }

  // ----- the critical section of Reload -----

  /** taskMaps: the task list by ident, a later task replacing an earlier one. */
  function TaskMap(tasks: seq<Task>): map<string, Task> {
    if tasks == [] then map[]
    else TaskMap(tasks[..|tasks| - 1])[tasks[|tasks| - 1].config.ident := tasks[|tasks| - 1]]
  }

  /** The task is listed, and no later one has its ident. */
  ghost predicate LastOfIdent(tasks: seq<Task>, t: Task) {
    exists k :: 0 <= k < |tasks| && tasks[k] == t && forall i :: k < i < |tasks| ==> tasks[i].config.ident != t.config.ident
  }

  lemma LastStays(front: seq<Task>, t: Task)
    ensures LastOfIdent(front + [t], t)
    ensures forall x :: LastOfIdent(front, x) && x.config.ident != t.config.ident ==> LastOfIdent(front + [t], x)
  {
    var tasks := front + [t];
    assert tasks[|front|] == t;
    forall x | LastOfIdent(front, x) && x.config.ident != t.config.ident ensures LastOfIdent(tasks, x) {
      var k :| 0 <= k < |front| && front[k] == x && forall i :: k < i < |front| ==> front[i].config.ident != x.config.ident;
      assert tasks[k] == x && forall i :: k < i < |front| ==> tasks[i] == front[i];
    }
  }

  /** The map has an entry for every listed ident: the last task with it. */
  lemma {:induction false} TaskMapKeyed(tasks: seq<Task>)
    ensures forall id :: id in TaskMap(tasks) ==> LastOfIdent(tasks, TaskMap(tasks)[id]) && TaskMap(tasks)[id].config.ident == id
    ensures forall t :: t in tasks ==> t.config.ident in TaskMap(tasks)
  {
    if tasks != [] {
      var front, t := tasks[..|tasks| - 1], tasks[|tasks| - 1];
      TaskMapKeyed(front);
      assert tasks == front + [t];
      LastStays(front, t);
      hide LastOfIdent;
    }
  }

  method BuildTaskMap(tasks: seq<Task>) returns (m: map<string, Task>)
    ensures m == TaskMap(tasks)
    ensures forall id :: id in m <==> exists t :: t in tasks && t.config.ident == id
    ensures forall id :: id in m ==> LastOfIdent(tasks, m[id]) && m[id].config.ident == id
  {
    m := map[];
    for i := 0 to |tasks|
      invariant m == TaskMap(tasks[..i])
    {
      assert tasks[..i + 1][..i] == tasks[..i];
      m := m[tasks[i].config.ident := tasks[i]];
    }
    assert tasks[..|tasks|] == tasks;
    TaskMapKeyed(tasks);
    hide TaskMap;
    assert forall t :: LastOfIdent(tasks, t) ==> t in tasks;
  }

  /** The jobs after the first n: idents are as before, jobs that go on have their new task
      configuration, the others were stopped once more. */
  ghost predicate SiftedTo(js: seq<IntervalJob>, idents: seq<string>, stops: seq<nat>, wanted: map<string, Task>, n: nat)
    reads js
  {
    && n <= |js| == |idents| == |stops|
    && (forall k :: 0 <= k < |js| ==> js[k].task.config.ident == idents[k])
    && (forall k :: 0 <= k < n && Keeps(idents, wanted.Keys, k) ==> js[k].task == wanted[idents[k]])
    && (forall k :: 0 <= k < |js| ==>
          js[k].stops == stops[k] + (if k >= n || Keeps(idents, wanted.Keys, k) then 0 else 1))
  }

  lemma SiftedLengths(js: seq<IntervalJob>, idents: seq<string>, stops: seq<nat>, wanted: map<string, Task>, n: nat)
    requires SiftedTo(js, idents, stops, wanted, n)
    ensures n <= |js| == |idents| == |stops|
  {
  }

  /** reloadJobFromTask: the old job keeps its check time and takes the new configuration. */
  method ReloadJobFromTask(job: IntervalJob, task: Task)
    modifies job`task
    ensures job.task == task
  {
    job.task := job.task.(globalConfig := task.globalConfig);
    job.task := job.task.(config := task.config);
  }

  method KeepOne(job: IntervalJob, task: Task, queue: LockQueue)
    requires Sorted(queue.jobs) && Distinct(queue.jobs) && job !in queue.jobs
    modifies queue, job`task
    ensures job.task == task
    ensures Sorted(queue.jobs) && Distinct(queue.jobs) && Elements(queue.jobs) == old(Elements(queue.jobs)) + {job}
  {
    ReloadJobFromTask(job, task);
    ghost var before := queue.jobs;
    queue.Push([job]);
    DistinctPush(queue.jobs, before, job);
  }

  /** One turn of the loop below. */
  method SiftOne(jobs: seq<IntervalJob>, i: nat, wanted: map<string, Task>, rest: map<string, Task>, queue: LockQueue,
                 ghost idents: seq<string>, ghost stops: seq<nat>) returns (rest': map<string, Task>)
    requires i < |jobs| && Distinct(jobs) && jobs[i] !in queue.jobs && SiftedTo(jobs, idents, stops, wanted, i)
    requires Sorted(queue.jobs) && Distinct(queue.jobs)
    requires idents[i] in rest <==> Keeps(idents, wanted.Keys, i)
    requires forall id :: id in rest ==> id in wanted && rest[id] == wanted[id] && wanted[id].config.ident == id
    modifies queue, jobs`task, jobs`stops
    ensures SiftedTo(jobs, idents, stops, wanted, i + 1)
    ensures rest' == rest - {idents[i]}
    ensures Sorted(queue.jobs) && Distinct(queue.jobs)
    ensures Elements(queue.jobs) == old(Elements(queue.jobs)) + (if Keeps(idents, wanted.Keys, i) then {jobs[i]} else {})
  {
    OthersDiffer(jobs, i);
    hide Distinct, Keeps;
    var job := jobs[i];
    var ident := job.task.config.ident;
    if ident in rest {
      KeepOne(job, rest[ident], queue);
      rest' := rest - {ident};
    } else {
      job.Stop();
      rest' := rest;
    }
  }

  lemma NotAnElement<T>(s: seq<T>, x: T)
    requires x !in Elements(s)
    ensures x !in s
  {
  }

  /** The task map without the next ident. */
  lemma RestStep(idents: seq<string>, wanted: map<string, Task>, rest: map<string, Task>, i: nat)
    requires i < |idents| && rest.Keys == wanted.Keys - Elements(idents[..i])
    ensures idents[i] in rest <==> Keeps(idents, wanted.Keys, i)
    ensures (rest - {idents[i]}).Keys == wanted.Keys - Elements(idents[..i + 1])
  {
    KeepsMeans(idents, wanted.Keys, i);
  }

  /** Every old job is either moved to the new queue with its new configuration or stopped; what
      is left of the task map are the idents no old job had. */
  method Sift(jobs: seq<IntervalJob>, wanted: map<string, Task>, queue: LockQueue, ghost idents: seq<string>, ghost stops: seq<nat>)
    returns (rest: map<string, Task>)
    requires Distinct(jobs) && Sorted(jobs) && queue.jobs == [] && SiftedTo(jobs, idents, stops, wanted, 0)
    requires forall id :: id in wanted ==> wanted[id].config.ident == id
    modifies queue, jobs`task, jobs`stops
    ensures SiftedTo(jobs, idents, stops, wanted, |jobs|) && Sorted(jobs)
    ensures rest.Keys == wanted.Keys - Elements(idents) && forall id :: id in rest ==> rest[id] == wanted[id]
    ensures Sorted(queue.jobs) && Distinct(queue.jobs)
    ensures Elements(queue.jobs) == KeptJobs(jobs, idents, wanted.Keys, |jobs|)
  {
    rest := wanted;
    for i := 0 to |jobs|
      invariant SiftedTo(jobs, idents, stops, wanted, i)
      invariant rest.Keys == wanted.Keys - Elements(idents[..i]) && forall id :: id in rest ==> rest[id] == wanted[id]
      invariant Sorted(queue.jobs) && Distinct(queue.jobs)
      invariant Elements(queue.jobs) == KeptJobs(jobs, idents, wanted.Keys, i)
    {
      hide Distinct, Sorted, KeptJobs, Keeps, SiftedTo, Elements;
      SiftedLengths(jobs, idents, stops, wanted, i);
      KeptAreEarlier(jobs, idents, wanted.Keys, i);
      KeptStep(jobs, idents, wanted.Keys, i);
      NotAnElement(queue.jobs, jobs[i]);
      RestStep(idents, wanted, rest, i);
      rest := SiftOne(jobs, i, wanted, rest, queue, idents, stops);
    }
    assert idents[..|jobs|] == idents;
  }

  // ----- the daemon -----

  class DaemonState {
    var tasks: map<string, Task>
    var config: int
    /** Status is Running. */
    var running: bool
    var jobAtomic: bool
    const jobs: LockQueue

    constructor (config: int)
      ensures tasks == map[] && this.config == config && !running && !jobAtomic && fresh(jobs) && jobs.jobs == []
    {
      var q := new LockQueue();
      tasks, this.config, running, jobAtomic, jobs := map[], config, false, false, q;
    }
  }

  /** The queue's jobs dealt into the due ones and the rest. */
  ghost predicate Dealt(all: seq<IntervalJob>, due: seq<IntervalJob>, rest: seq<IntervalJob>) {
    && multiset(all) == multiset(due) + multiset(rest)
    && Distinct(due) && Distinct(rest)
    && (forall j :: j in due ==> j in all && j !in rest)
    && (forall j :: j in rest ==> j in all)
    && (forall j :: j in all ==> j in due || j in rest)
  }

  lemma DealtMeans(all: seq<IntervalJob>, due: seq<IntervalJob>, rest: seq<IntervalJob>)
    requires Dealt(all, due, rest)
    ensures Distinct(due)
    ensures forall j :: j in due ==> j in all && j !in rest
    ensures forall j :: j in all ==> j in due || j in rest
  {
  }

  /** The job ran once and moved on if it was due, and is unchanged otherwise. */
  twostate predicate Ticked(j: IntervalJob, now: int)
    reads j
  {
    && j.task == old(j.task) && j.stops == old(j.stops)
    && j.runs == old(j.runs) + (if old(j.checkTime) <= now then 1 else 0)
    && j.checkTime == old(j.checkTime) +
         if old(j.checkTime) > now then 0 else if j.task.config.period > 0 then j.task.config.period else 10_000_000_000
  }

  /** The job's progress since the old state is that of a new one over the ticks. */
  twostate predicate TickedThrough(j: IntervalJob, ticks: seq<int>)
    reads j
  {
    var p := Progressed(j.task.config.Period(), old(j.checkTime), ticks);
    j.task == old(j.task) && j.stops == old(j.stops) && j.checkTime == p.checkTime && j.runs == old(j.runs) + p.runs
  }

  twostate predicate Counted(j: IntervalJob, ticks: seq<int>)
    reads j
  {
    && j.task == old(j.task) && j.runs >= old(j.runs)
    && var period := if j.task.config.period > 0 then j.task.config.period else 10_000_000_000;
    && IsRunCount(period, old(j.checkTime), ticks, j.runs - old(j.runs))
    && j.checkTime == old(j.checkTime) + (j.runs - old(j.runs)) * period
  }

  lemma NoTicks()
    ensures forall period, init :: Progressed(period, init, []) == Progress(init, 0)
  {
  }

  lemma ProgressedStep(period: int, init: int, ticks: seq<int>, i: nat)
    requires i < |ticks|
    ensures Progressed(period, init, ticks[..i + 1]) == TickProgress(period, Progressed(period, init, ticks[..i]), ticks[i])
  {
    assert ticks[..i + 1][..i] == ticks[..i];
  }

  lemma SameElements<T>(a: seq<T>, b: seq<T>)
    requires multiset(a) == multiset(b)
    ensures forall x :: x in b <==> x in a
  {
    assert forall x :: x in a <==> x in multiset(a);
  }

  twostate predicate Advanced(j: IntervalJob, runs: nat, time: int)
    reads j
  {
    j.task == old(j.task) && j.stops == old(j.stops) &&
    j.runs == old(j.runs) + runs && j.checkTime == old(j.checkTime) + time
  }

  /** Exactly one job for each task of the list, with that task's configuration. */
  ghost predicate OneJobEach(js: seq<IntervalJob>, wanted: map<string, Task>)
    reads js
  {
    && (forall j :: j in js ==> j.task.config.ident in wanted && j.task == wanted[j.task.config.ident])
    && (forall j, k :: j in js && k in js && j != k ==> j.task.config.ident != k.task.config.ident)
    && (forall id :: id in wanted ==> exists j :: j in js && j.task.config.ident == id)
  }

  ghost predicate EarliestOfIdent(js: seq<IntervalJob>, idents: seq<string>, i: nat)
    requires i < |js| == |idents|
    reads js
  {
    forall k :: 0 <= k < |js| && idents[k] == idents[i] ==> js[i].checkTime <= js[k].checkTime
  }

  lemma JobsHaveLastTasks(js: seq<IntervalJob>, tasks: seq<Task>)
    requires OneJobEach(js, TaskMap(tasks))
    ensures forall j :: j in js ==> LastOfIdent(tasks, j.task)
  {
    TaskMapKeyed(tasks);
    hide TaskMap, LastOfIdent;
  }

  /** What has become of the old jobs: the first of each wanted ident is queued again, unstopped,
      and no old job of its ident is due earlier; all others are stopped once more and not queued. */
  ghost predicate Settled(js: seq<IntervalJob>, idents: seq<string>, stops: seq<nat>, wanted: set<string>, queue: seq<IntervalJob>)
    requires |stops| == |idents| == |js|
    reads js
  {
    && (forall i :: 0 <= i < |js| && Keeps(idents, wanted, i) ==>
          js[i] in queue && js[i].stops == stops[i] && EarliestOfIdent(js, idents, i))
    && (forall i :: 0 <= i < |js| && !Keeps(idents, wanted, i) ==> js[i] !in queue && js[i].stops == stops[i] + 1)
  }

  class Daemon {
    var state: DaemonState

    /** The queue is in time order and holds no job twice. */
    ghost predicate Valid()
      reads this, state, state.jobs, state.jobs.jobs
    {
      Sorted(state.jobs.jobs) && Distinct(state.jobs.jobs)
    }

    constructor (config: int)
      ensures Valid() && fresh(state) && fresh(state.jobs) && state.jobs.jobs == [] && !state.running && !state.jobAtomic
    {
      state := new DaemonState(config);
    }

    /** Add registers the task; on a running daemon it also queues one new job, due at once. */
    method Add(task: Task, now: int) returns (job: Option<IntervalJob>)
      requires Valid()
      modifies state`tasks, state.jobs
      ensures Valid() && state.tasks == old(state.tasks)[task.config.ident := task]
      ensures job.Some? <==> state.running
      ensures job.Some? ==> fresh(job.value) && job.value.task == task && job.value.checkTime == now
      ensures job.Some? ==> multiset(state.jobs.jobs) == multiset(old(state.jobs.jobs)) + multiset([job.value])
      ensures job.None? ==> state.jobs.jobs == old(state.jobs.jobs)
    {
      state.tasks := state.tasks[task.config.ident := task];
      if !state.running {
        return None;
      }
      var made := new IntervalJob(task, now);
      ghost var before := state.jobs.jobs;
      state.jobs.Push([made]);
      DistinctPush(state.jobs.jobs, before, made);
      job := Some(made);
    }

    /** Start queues one job, due at once, for each registered task. */
    method Start(clock: string -> int)
      requires Valid() && state.jobs.jobs == []
      requires forall id :: id in state.tasks ==> state.tasks[id].config.ident == id
      modifies state`running, state.jobs
      ensures Valid() && state.running && OneJobEach(state.jobs.jobs, state.tasks)
      ensures forall j :: j in state.jobs.jobs ==> j.checkTime == clock(j.task.config.ident)
    {
      hide Distinct, Sorted, OneJobEach, Elements, KeptJobs, SiftedTo;
      state.running := true;
      NothingYet(state.jobs.jobs, state.tasks);
      var made := MakeJobs(state.tasks, state.jobs, clock);
      Rebuilt([], [], [], state.tasks, state.tasks, made, state.jobs.jobs);
      NewJobs([], [], state.tasks, made, state.jobs.jobs);
    }

    /** One turn of the loop at time `now`. When the flag is taken nothing happens; otherwise the
        due jobs each run once and move on by one period, the rest are untouched, and the same
        jobs are queued again in time order. */
    method Tick(now: int)
      requires Valid()
      modifies state`jobAtomic, state.jobs, state.jobs.jobs
      ensures Valid() && state.jobAtomic == old(state.jobAtomic)
      ensures multiset(state.jobs.jobs) == multiset(old(state.jobs.jobs))
      ensures old(state.jobAtomic) ==> forall j :: j in old(state.jobs.jobs) ==> unchanged(j)
      ensures !old(state.jobAtomic) ==> forall j :: j in old(state.jobs.jobs) ==> Ticked(j, now)
    {
      if state.jobAtomic {
        return;
      }
      state.jobAtomic := true;
      RunDue(state.jobs, now);
      state.jobAtomic := false;
    }

    /** A run of the loop with ticks at any times: every job's run count is the exact one and its
        check time the start plus its runs times the period; the jobs queued stay the same. */
    method TickAll(times: seq<int>)
      requires Valid() && !state.jobAtomic && NonDecreasing(times)
      modifies state`jobAtomic, state.jobs, state.jobs.jobs
      ensures Valid() && !state.jobAtomic && multiset(state.jobs.jobs) == multiset(old(state.jobs.jobs))
      ensures forall j :: j in old(state.jobs.jobs) ==> Counted(j, times)
      ensures forall j :: j in old(state.jobs.jobs) && j.task.config.period > 0 ==>
                j.checkTime == old(j.checkTime) + (j.runs - old(j.runs)) * j.task.config.period
      ensures forall j :: j in old(state.jobs.jobs) && j.task.config.period <= 0 ==>
                j.checkTime == old(j.checkTime) + (j.runs - old(j.runs)) * 10_000_000_000
    {
      hide Distinct, Sorted, Progressed;
      NoTicks();
      assert times[..0] == [];
      for i := 0 to |times|
        invariant Valid() && !state.jobAtomic && multiset(state.jobs.jobs) == multiset(old(state.jobs.jobs))
        invariant forall j :: j in old(state.jobs.jobs) ==> TickedThrough(j, times[..i])
      {
        SameElements(state.jobs.jobs, old(state.jobs.jobs));
        assert forall k :: 0 <= k < |state.jobs.jobs| ==> state.jobs.jobs[k] in old(state.jobs.jobs);
        Tick(times[i]);
        forall j | j in old(state.jobs.jobs) ensures TickedThrough(j, times[..i + 1]) {
          ProgressedStep(j.task.config.Period(), old(j.checkTime), times, i);
        }
      }
      assert times[..|times|] == times;
      forall j | j in old(state.jobs.jobs) ensures Counted(j, times) {
        ExactRunCount(j.task.config.Period(), old(j.checkTime), times);
        NoDrift(j.task.config.Period(), old(j.checkTime), times);
      }
    }

    /** PopUntil, run, Next, Push. */
    method RunDue(queue: LockQueue, now: int)
      requires Sorted(queue.jobs) && Distinct(queue.jobs)
      modifies queue, queue.jobs
      ensures Sorted(queue.jobs) && Distinct(queue.jobs)
      ensures multiset(queue.jobs) == multiset(old(queue.jobs))
      ensures forall j :: j in old(queue.jobs) ==> Ticked(j, now)
    {
      hide Distinct, Sorted, Dealt;
      ghost var all := queue.jobs;
      var due := PopDue(queue, now);
      DealtMeans(all, due, queue.jobs);
      if |due| > 0 {
        RunAndAdvance(due, all);
      }
      Requeue(queue, due, all);
    }

    method PopDue(queue: LockQueue, now: int) returns (due: seq<IntervalJob>)
      requires Sorted(queue.jobs) && Distinct(queue.jobs)
      modifies queue
      ensures Dealt(old(queue.jobs), due, queue.jobs)
      ensures Sorted(queue.jobs)
      ensures forall j :: j in due ==> j.checkTime <= now
      ensures forall j :: j in queue.jobs ==> j.checkTime > now
    {
      due := queue.PopUntil(now);
      assert multiset(due + queue.jobs) == multiset(due) + multiset(queue.jobs);
      DistinctSplit(old(queue.jobs), due, queue.jobs);
    }

    /** With nothing due the queue is left as it is. */
    method Requeue(queue: LockQueue, due: seq<IntervalJob>, ghost all: seq<IntervalJob>)
      requires Dealt(all, due, queue.jobs) && Distinct(all)
      requires due == [] ==> Sorted(queue.jobs)
      modifies queue
      ensures Sorted(queue.jobs) && Distinct(queue.jobs) && multiset(queue.jobs) == multiset(all)
    {
      if |due| > 0 {
        queue.Push(due);
      }
      DistinctPermute(queue.jobs, all);
    }

    /** Runs every due job, then moves every due job on. */
    method RunAndAdvance(due: seq<IntervalJob>, ghost all: seq<IntervalJob>)
      requires Distinct(due) && forall j :: j in due ==> j in all
      modifies all`runs, all`checkTime
      ensures forall j :: j in due ==> Advanced(j, 1, if j.task.config.period > 0 then j.task.config.period else 10_000_000_000)
      ensures forall j :: j in all && j !in due ==> unchanged(j)
    {
      for i := 0 to |due|
        invariant forall k :: 0 <= k < |due| ==> Advanced(due[k], if k < i then 1 else 0, 0)
        invariant forall j :: j in all && j !in due ==> unchanged(j)
      {
        OthersDiffer(due, i);
        assert due[i] in due;
        due[i].Run();
      }
      for i := 0 to |due|
        invariant forall k :: 0 <= k < |due| ==> Advanced(due[k], 1, if k < i then due[k].task.config.Period() else 0)
        invariant forall j :: j in all && j !in due ==> unchanged(j)
      {
        OthersDiffer(due, i);
        assert due[i] in due;
        due[i].Next();
      }
    }

    /** The state a reload builds: it takes over the status. */
    method NextState(config: int, tasks: seq<Task>) returns (next: DaemonState)
      ensures fresh(next) && fresh(next.jobs) && next.jobs.jobs == [] && !next.jobAtomic
      ensures next.config == config && next.running == state.running && next.tasks == TaskMap(tasks)
    {
      next := new DaemonState(config);
      next.running := state.running;
      next.tasks := BuildTaskMap(tasks);
    }

    /** Reload with no tick in flight. Afterwards the queue holds exactly one job per ident of the
        new task list, even if the old queue held an ident twice, and each has that task's
        configuration. A job that goes on is the earliest old job of its ident and keeps its check
        time; every other old job has been stopped, exactly once; idents no old job had get a new
        job that is due at once. */
    method Reload(config: int, tasks: seq<Task>, clock: string -> int)
      requires Valid() && !state.jobAtomic
      modifies this, state`jobAtomic, state.jobs, state.jobs.jobs`task, state.jobs.jobs`stops
      ensures Valid() && fresh(state) && fresh(state.jobs) && state.config == config && !state.jobAtomic
      ensures state.running == old(state.running)
      ensures state.tasks == TaskMap(tasks) && old(state.jobs).jobs == []
      ensures forall t :: t in tasks ==> t.config.ident in state.tasks
      ensures forall id :: id in state.tasks ==> LastOfIdent(tasks, state.tasks[id]) && state.tasks[id].config.ident == id
      ensures forall j :: j in state.jobs.jobs ==> LastOfIdent(tasks, j.task)
      ensures OneJobEach(state.jobs.jobs, TaskMap(tasks))
      ensures Settled(old(state.jobs.jobs), old(Idents(state.jobs.jobs)), old(Stops(state.jobs.jobs)), state.tasks.Keys, state.jobs.jobs)
      ensures forall j :: j in old(state.jobs.jobs) ==> j.checkTime == old(j.checkTime) && j.runs == old(j.runs)
      ensures forall j :: j in state.jobs.jobs && j !in old(state.jobs.jobs) ==> fresh(j) && j.checkTime == clock(j.task.config.ident)
    {
      hide Distinct, Sorted, OneJobEach, Keeps, TaskMap, Settled, SiftedTo, Elements, Idents, Stops, LastOfIdent;
      var oldState := state;
      var next := NextState(config, tasks);
      TaskMapKeyed(tasks);
      ghost var js := oldState.jobs.jobs;
      ghost var idents, stops := Idents(js), Stops(js);
      assert SiftedTo(js, idents, stops, next.tasks, 0) by { SiftStart(js, next.tasks); }
      oldState.jobAtomic := true;
      var jobs := oldState.jobs.PopAll();
      Rebuild(oldState, jobs, next.tasks, next.jobs, clock, idents, stops);
      state := next;
      JobsHaveLastTasks(next.jobs.jobs, tasks);
    }

    /** From the popped old jobs to the new queue; the old state's flag is given back in between. */
    method Rebuild(oldState: DaemonState, jobs: seq<IntervalJob>, wanted: map<string, Task>, queue: LockQueue,
                   clock: string -> int, ghost idents: seq<string>, ghost stops: seq<nat>)
      requires Distinct(jobs) && Sorted(jobs) && queue.jobs == [] && SiftedTo(jobs, idents, stops, wanted, 0)
      requires forall id :: id in wanted ==> wanted[id].config.ident == id
      modifies oldState`jobAtomic, queue, jobs`task, jobs`stops
      ensures !oldState.jobAtomic && Sorted(queue.jobs) && Distinct(queue.jobs) && OneJobEach(queue.jobs, wanted)
      ensures |stops| == |idents| == |jobs| && Settled(jobs, idents, stops, wanted.Keys, queue.jobs)
      ensures forall j :: j in queue.jobs && j !in jobs ==> fresh(j) && j.checkTime == clock(j.task.config.ident)
    {
      hide Distinct, Sorted, OneJobEach, KeptJobs, Keeps, Settled, SiftedTo, Elements;
      var rest := Sift(jobs, wanted, queue, idents, stops);
      oldState.jobAtomic := false;
      var made := MakeJobs(rest, queue, clock);
      SwapDone(jobs, idents, stops, wanted, rest, made, queue.jobs);
    }

    /** makeJobFromTask for every task of the map. */
    method MakeJobs(rest: map<string, Task>, queue: LockQueue, clock: string -> int) returns (made: map<string, IntervalJob>)
      requires Sorted(queue.jobs) && Distinct(queue.jobs)
      requires forall id :: id in rest ==> rest[id].config.ident == id
      modifies queue
      ensures Sorted(queue.jobs) && Distinct(queue.jobs)
      ensures made.Keys == rest.Keys
      ensures Elements(queue.jobs) == old(Elements(queue.jobs)) + made.Values
      ensures forall id :: id in made ==> fresh(made[id]) && made[id].task == rest[id] && made[id].checkTime == clock(id)
    {
      var todo := rest.Keys;
      made := map[];
      while todo != {}
        invariant todo <= rest.Keys && made.Keys == rest.Keys - todo
        invariant Sorted(queue.jobs) && Distinct(queue.jobs)
        invariant Elements(queue.jobs) == old(Elements(queue.jobs)) + made.Values
        invariant forall id :: id in made ==> fresh(made[id]) && made[id].task == rest[id] && made[id].checkTime == clock(id)
        decreases todo
      {
        hide Distinct;
        var id :| id in todo;
        ghost var before := queue.jobs;
        var job := new IntervalJob(rest[id], clock(id));
        queue.Push([job]);
        DistinctPush(queue.jobs, before, job);
        assert made[id := job].Values == made.Values + {job} by { AddedValue(made, id, job); }
        made := made[id := job];
        todo := todo - {id};
      }
    }
  }

  // ----- what the swap leaves behind -----

  lemma SiftStart(js: seq<IntervalJob>, wanted: map<string, Task>)
    ensures SiftedTo(js, Idents(js), Stops(js), wanted, 0)
  {
  }

  lemma NothingYet(queue: seq<IntervalJob>, wanted: map<string, Task>)
    requires queue == []
    ensures SiftedTo([], [], [], wanted, 0)
    ensures wanted.Keys - Elements<string>([]) == wanted.Keys
    ensures Elements(queue) == KeptJobs([], [], wanted.Keys, 0)
  {
  }

  /** A queued job is the first old one of its ident, or the one made for it. */
  lemma QueuedJob(js: seq<IntervalJob>, idents: seq<string>, stops: seq<nat>, wanted: map<string, Task>, rest: map<string, Task>,
                  made: map<string, IntervalJob>, queue: seq<IntervalJob>, j: IntervalJob)
    returns (id: string, i: nat)
    requires SiftedTo(js, idents, stops, wanted, |js|)
    requires rest.Keys == wanted.Keys - Elements(idents) && made.Keys == rest.Keys
    requires forall id :: id in made ==> made[id].task == wanted[id]
    requires forall id :: id in wanted ==> wanted[id].config.ident == id
    requires Elements(queue) == KeptJobs(js, idents, wanted.Keys, |js|) + made.Values && j in queue
    ensures id in wanted && j.task == wanted[id] && j.task.config.ident == id
    ensures if id in rest then id in made && j == made[id]
            else i < |js| && Keeps(idents, wanted.Keys, i) && idents[i] == id && j == js[i]
  {
    assert j in Elements(queue);
    if j in made.Values {
      id :| id in made && made[id] == j;
      i := 0;
    } else {
      i :| 0 <= i < |js| && Keeps(idents, wanted.Keys, i) && js[i] == j;
      id := idents[i];
    }
  }

  lemma JobForIdent(js: seq<IntervalJob>, idents: seq<string>, stops: seq<nat>, wanted: map<string, Task>,
                    made: map<string, IntervalJob>, queue: seq<IntervalJob>, id: string)
    requires SiftedTo(js, idents, stops, wanted, |js|)
    requires made.Keys == wanted.Keys - Elements(idents)
    requires forall id :: id in made ==> made[id].task == wanted[id]
    requires forall id :: id in wanted ==> wanted[id].config.ident == id
    requires Elements(queue) == KeptJobs(js, idents, wanted.Keys, |js|) + made.Values && id in wanted
    ensures exists j :: j in queue && j.task.config.ident == id
  {
    if id in idents {
      var n :| 0 <= n < |idents| && idents[n] == id;
      var i := FirstWithIdent(idents, wanted.Keys, n);
      assert js[i] in Elements(queue);
    } else {
      assert made[id] in Elements(queue);
    }
  }

  lemma Rebuilt(js: seq<IntervalJob>, idents: seq<string>, stops: seq<nat>, wanted: map<string, Task>, rest: map<string, Task>,
                made: map<string, IntervalJob>, queue: seq<IntervalJob>)
    requires SiftedTo(js, idents, stops, wanted, |js|)
    requires rest.Keys == wanted.Keys - Elements(idents) && made.Keys == rest.Keys
    requires forall id :: id in made ==> made[id].task == wanted[id]
    requires forall id :: id in wanted ==> wanted[id].config.ident == id
    requires Elements(queue) == KeptJobs(js, idents, wanted.Keys, |js|) + made.Values
    ensures OneJobEach(queue, wanted)
  {
    SiftedLengths(js, idents, stops, wanted, |js|);
    hide SiftedTo, KeptJobs, Keeps;
    forall id | id in wanted ensures exists j :: j in queue && j.task.config.ident == id {
      JobForIdent(js, idents, stops, wanted, made, queue, id);
    }
    forall j | j in queue ensures j.task.config.ident in wanted && j.task == wanted[j.task.config.ident] {
      var id, i := QueuedJob(js, idents, stops, wanted, rest, made, queue, j);
    }
    forall j, k | j in queue && k in queue && j != k ensures j.task.config.ident != k.task.config.ident {
      var a, i := QueuedJob(js, idents, stops, wanted, rest, made, queue, j);
      var b, l := QueuedJob(js, idents, stops, wanted, rest, made, queue, k);
      if a == b && a !in rest {
        KeepsOnce(idents, wanted.Keys, i, l);
      }
    }
  }

  lemma AllSettled(js: seq<IntervalJob>, idents: seq<string>, stops: seq<nat>, wanted: map<string, Task>,
                   made: map<string, IntervalJob>, queue: seq<IntervalJob>)
    requires SiftedTo(js, idents, stops, wanted, |js|) && Distinct(js) && Sorted(js)
    requires Elements(queue) == KeptJobs(js, idents, wanted.Keys, |js|) + made.Values
    requires forall j :: j in js ==> j !in made.Values
    ensures Settled(js, idents, stops, wanted.Keys, queue)
  {
    forall i | 0 <= i < |js| ensures js[i] in queue <==> Keeps(idents, wanted.Keys, i) {
      KeptInQueue(js, idents, wanted.Keys, i);
      assert js[i] in queue <==> js[i] in Elements(queue);
    }
    forall i | 0 <= i < |js| && Keeps(idents, wanted.Keys, i) ensures EarliestOfIdent(js, idents, i) {
      KeepsMeans(idents, wanted.Keys, i);
    }
  }

  lemma NewJobs(js: seq<IntervalJob>, idents: seq<string>, wanted: map<string, Task>,
                made: map<string, IntervalJob>, queue: seq<IntervalJob>)
    requires |js| == |idents|
    requires Elements(queue) == KeptJobs(js, idents, wanted.Keys, |js|) + made.Values
    ensures forall j :: j in queue && j !in js ==> exists id :: id in made && made[id] == j
  {
    forall j | j in queue && j !in js ensures exists id :: id in made && made[id] == j {
      assert j in Elements(queue);
    }
  }

  lemma SwapDone(js: seq<IntervalJob>, idents: seq<string>, stops: seq<nat>, wanted: map<string, Task>, rest: map<string, Task>,
                 made: map<string, IntervalJob>, queue: seq<IntervalJob>)
    requires SiftedTo(js, idents, stops, wanted, |js|) && Distinct(js) && Sorted(js)
    requires rest.Keys == wanted.Keys - Elements(idents) && made.Keys == rest.Keys
    requires forall id :: id in made ==> made[id].task == rest[id] && made[id] !in js
    requires forall id :: id in rest ==> rest[id] == wanted[id]
    requires forall id :: id in wanted ==> wanted[id].config.ident == id
    requires Elements(queue) == KeptJobs(js, idents, wanted.Keys, |js|) + made.Values
    ensures OneJobEach(queue, wanted)
    ensures |stops| == |idents| == |js| && Settled(js, idents, stops, wanted.Keys, queue)
    ensures forall j :: j in queue && j !in js ==> exists id :: id in made && made[id] == j
  {
    SiftedLengths(js, idents, stops, wanted, |js|);
    hide SiftedTo, KeptJobs, Keeps, Distinct, Sorted, OneJobEach, Settled, Elements;
    Rebuilt(js, idents, stops, wanted, rest, made, queue);
    AllSettled(js, idents, stops, wanted, made, queue);
    NewJobs(js, idents, wanted, made, queue);
  }
}
