/** The tick loop and Reload running concurrently (scheduler/daemon/scheduler.go): small steps over
    shared state, any interleaving, any number of reloads one after another. A queue operation and
    a compare-and-swap are one step each; everything between them can interleave. */
module ReloadProtocol {
  import opened Arithmetic
  import opened Strings
  import opened Reconcile

  type JobId = nat

  /** One daemonState: its queue and its jobAtomic flag. */
  datatype Gen = Gen(queue: seq<JobId>, locked: bool)

  /** Where the tick loop is; `g` is the daemonState it captured when the tick arrived. */
  datatype Loop =
    | Idle
    | Captured(g: nat, now: int)
    | Holding(g: nat, now: int)
    | Running(g: nat, due: seq<JobId>, n: nat)
    | Advancing(g: nat, due: seq<JobId>, n: nat)
    | Releasing(g: nat)

  /** Where Reload is; `wanted` are the idents of the new task list, `rest` those without a job yet. */
  datatype Reload =
    | Resting
    | Spinning(wanted: set<string>)
    | HoldingOld(wanted: set<string>)
    | Sifting(wanted: set<string>, jobs: seq<JobId>, n: nat, rest: set<string>)
    | Making(wanted: set<string>, jobs: seq<JobId>, rest: set<string>)

  /** `runs` and `moves` count how often each job was run and moved on. `cur` is the published daemonState; a reload in progress builds generation cur + 1. */
  datatype State = State(
    gens: seq<Gen>, cur: nat, loop: Loop, reload: Reload, stopped: multiset<JobId>,
    nextId: nat, ident: map<JobId, string>, time: map<JobId, int>, runs: map<JobId, nat>,
    moves: map<JobId, nat>)

  ghost predicate SortedBy(time: map<JobId, int>, q: seq<JobId>) {
    && (forall j :: j in q ==> j in time)
    && forall a, b :: 0 <= a <= b < |q| ==> time[q[a]] <= time[q[b]]
  }

  /** What Push leaves: the old queue and the new jobs, sorted, ties in any order. */
  ghost predicate Pushed(time: map<JobId, int>, q: seq<JobId>, js: seq<JobId>, q': seq<JobId>) {
    SortedBy(time, q') && multiset(q') == multiset(q) + multiset(js)
  }

  datatype Action =
    | Capture(now: int)
    | LoopSwap
    | PopDue(n: nat)
    | RunOne
    | AllStarted
    | AdvanceOne(period: int)
    | PushBack(queue: seq<JobId>)
    | LoopRelease
    | Begin(wanted: set<string>)
    | ReloadSwap
    | TakeAll
    | KeepOne(queue: seq<JobId>)
    | StopOne
    | ReloadRelease
    | MakeOne(id: string, now: int, queue: seq<JobId>)
    | Publish

  function QueueAt(s: State, g: nat): seq<JobId> {
    if g < |s.gens| then s.gens[g].queue else []
  }

  predicate LockedAt(s: State, g: nat) { g < |s.gens| && s.gens[g].locked }

  function SetQueue(s: State, g: nat, q: seq<JobId>): seq<Gen> {
    if g < |s.gens| then s.gens[g := s.gens[g].(queue := q)] else s.gens
  }

  function SetLock(s: State, g: nat, locked: bool): seq<Gen> {
    if g < |s.gens| then s.gens[g := s.gens[g].(locked := locked)] else s.gens
  }

  /** The old job Reload looks at next. */
  function NextOld(s: State): JobId
    requires s.reload.Sifting? && s.reload.n < |s.reload.jobs|
  {
    s.reload.jobs[s.reload.n]
  }

  /** PopUntil takes the longest prefix of due jobs. */
  ghost predicate DuePrefix(time: map<JobId, int>, q: seq<JobId>, now: int, n: nat) {
    && n <= |q|
    && (forall j :: j in q[..n] ==> j in time && time[j] <= now)
    && (n < |q| ==> q[n] in time && time[q[n]] > now)
  }

  ghost predicate LoopEnabled(s: State, a: Action) {
    match a
    case Capture(_) => s.loop.Idle?
    case LoopSwap => s.loop.Captured?
    case PopDue(n) => s.loop.Holding? && DuePrefix(s.time, QueueAt(s, s.loop.g), s.loop.now, n)
    case RunOne => s.loop.Running? && s.loop.n < |s.loop.due| && s.loop.due[s.loop.n] in s.runs
    case AllStarted => s.loop.Running? && s.loop.n == |s.loop.due|
    case AdvanceOne(period) => period > 0 && s.loop.Advancing? && s.loop.n < |s.loop.due| && s.loop.due[s.loop.n] in s.time && s.loop.due[s.loop.n] in s.moves
    case PushBack(q) => s.loop.Advancing? && s.loop.n == |s.loop.due| && Pushed(s.time, QueueAt(s, s.loop.g), s.loop.due, q)
    case LoopRelease => s.loop.Releasing?
    case _ => false
  }

  ghost predicate ReloadEnabled(s: State, a: Action) {
    match a
    case Begin(_) => s.reload.Resting?
    case ReloadSwap => s.reload.Spinning? && !LockedAt(s, s.cur)
    case TakeAll => s.reload.HoldingOld?
    case KeepOne(q) =>
      && s.reload.Sifting? && s.reload.n < |s.reload.jobs|
      && NextOld(s) in s.ident && s.ident[NextOld(s)] in s.reload.rest
      && Pushed(s.time, QueueAt(s, s.cur + 1), [NextOld(s)], q)
    case StopOne =>
      && s.reload.Sifting? && s.reload.n < |s.reload.jobs|
      && NextOld(s) in s.ident && s.ident[NextOld(s)] !in s.reload.rest
    case ReloadRelease => s.reload.Sifting? && s.reload.n == |s.reload.jobs|
    case MakeOne(id, now, q) =>
      && s.reload.Making? && id in s.reload.rest
      && Pushed(s.time[s.nextId := now], QueueAt(s, s.cur + 1), [s.nextId], q)
    case Publish => s.reload.Making? && s.reload.rest == {}
    case _ => false
  }

  ghost function AfterLoop(s: State, a: Action): State
    requires LoopEnabled(s, a)
  {
    match a
    case Capture(now) => s.(loop := Captured(s.cur, now))
    case LoopSwap =>
      if LockedAt(s, s.loop.g) then s.(loop := Idle)
      else s.(loop := Holding(s.loop.g, s.loop.now), gens := SetLock(s, s.loop.g, true))
    case PopDue(n) =>
      var g, q := s.loop.g, QueueAt(s, s.loop.g);
      s.(loop := if n == 0 then Releasing(g) else Running(g, q[..n], 0), gens := SetQueue(s, g, q[n..]))
    case RunOne =>
      var j := s.loop.due[s.loop.n];
      s.(loop := Running(s.loop.g, s.loop.due, s.loop.n + 1), runs := s.runs[j := s.runs[j] + 1])
    case AllStarted => s.(loop := Advancing(s.loop.g, s.loop.due, 0))
    case AdvanceOne(period) =>
      var j := s.loop.due[s.loop.n];
      s.(loop := Advancing(s.loop.g, s.loop.due, s.loop.n + 1), time := s.time[j := s.time[j] + period],
         moves := s.moves[j := s.moves[j] + 1])
    case PushBack(q) => s.(loop := Releasing(s.loop.g), gens := SetQueue(s, s.loop.g, q))
    case LoopRelease => s.(loop := Idle, gens := SetLock(s, s.loop.g, false))
  }

  ghost function AfterReload(s: State, a: Action): State
    requires ReloadEnabled(s, a)
  {
    match a
    case Begin(wanted) => s.(reload := Spinning(wanted), gens := s.gens + [Gen([], false)])
    case ReloadSwap => s.(reload := HoldingOld(s.reload.wanted), gens := SetLock(s, s.cur, true))
    case TakeAll =>
      s.(reload := Sifting(s.reload.wanted, QueueAt(s, s.cur), 0, s.reload.wanted), gens := SetQueue(s, s.cur, []))
    case KeepOne(q) =>
      s.(reload := Sifting(s.reload.wanted, s.reload.jobs, s.reload.n + 1, s.reload.rest - {s.ident[NextOld(s)]}),
         gens := SetQueue(s, s.cur + 1, q))
    case StopOne =>
      s.(reload := Sifting(s.reload.wanted, s.reload.jobs, s.reload.n + 1, s.reload.rest),
         stopped := s.stopped + multiset([NextOld(s)]))
    case ReloadRelease =>
      s.(reload := Making(s.reload.wanted, s.reload.jobs, s.reload.rest), gens := SetLock(s, s.cur, false))
    case MakeOne(id, now, q) =>
      s.(reload := Making(s.reload.wanted, s.reload.jobs, s.reload.rest - {id}), nextId := s.nextId + 1,
         ident := s.ident[s.nextId := id], time := s.time[s.nextId := now], runs := s.runs[s.nextId := 0],
         moves := s.moves[s.nextId := 0],
         gens := SetQueue(s, s.cur + 1, q))
    case Publish => s.(reload := Resting, cur := s.cur + 1)
  }

  ghost predicate Step(s: State, a: Action, s': State) {
    || (LoopEnabled(s, a) && s' == AfterLoop(s, a))
    || (ReloadEnabled(s, a) && s' == AfterReload(s, a))
  }

  /** The state Start leaves: one generation, its jobs queued in time order. */
  ghost predicate Init(s: State) {
    && |s.gens| == 1 && s.cur == 0 && !s.gens[0].locked && s.loop.Idle? && s.reload.Resting?
    && s.stopped == multiset{}
    && (forall j: JobId :: multiset(s.gens[0].queue)[j] == if j < s.nextId then 1 else 0)
    && (forall j: JobId :: j < s.nextId <==> j in s.time)
    && s.ident.Keys == s.time.Keys == s.runs.Keys && s.moves == s.runs
    && SortedBy(s.time, s.gens[0].queue)
  }

  ghost predicate IsRun(ss: seq<State>, acts: seq<Action>) {
    && |ss| == |acts| + 1 && Init(ss[0])
    && forall i :: 0 <= i < |acts| ==> Step(ss[i], acts[i], ss[i + 1])
  }

  // ----- the invariant -----

  predicate LoopHolds(s: State, g: nat) {
    (s.loop.Holding? || s.loop.Running? || s.loop.Advancing? || s.loop.Releasing?) && s.loop.g == g
  }

  predicate ReloadHolds(s: State, g: nat) {
    (s.reload.HoldingOld? || s.reload.Sifting?) && s.cur == g
  }

  predicate LoopCarries(s: State) { s.loop.Running? || s.loop.Advancing? }

  /** Flags are set exactly while held and never by both sides. */
  ghost predicate Flagged(s: State) {
    && (forall g :: 0 <= g < |s.gens| ==> (s.gens[g].locked <==> LoopHolds(s, g) || ReloadHolds(s, g)))
    && (forall g :: 0 <= g < |s.gens| ==> !(LoopHolds(s, g) && ReloadHolds(s, g)))
  }

  /** Retired generations are empty; the loop carries jobs only from the published generation, and
      only while Reload has not started on it; a generation's queue is empty once Reload has taken
      it over. */
  ghost predicate Separate(s: State) {
    && |s.gens| == s.cur + (if s.reload.Resting? then 1 else 2)
    && (s.loop.Idle? || s.loop.g <= s.cur)
    && (forall g :: 0 <= g < s.cur ==> s.gens[g].queue == [])
    && (LoopCarries(s) ==> s.loop.g == s.cur && (s.reload.Resting? || s.reload.Spinning?))
    && (s.reload.Sifting? || s.reload.Making? ==> s.gens[s.cur].queue == [])
    && (s.reload.Spinning? || s.reload.HoldingOld? ==> s.gens[s.cur + 1].queue == [])
    && (s.reload.Sifting? ==> s.reload.n <= |s.reload.jobs|)
    && (LoopCarries(s) ==> s.loop.n <= |s.loop.due|)
  }

  ghost predicate Disciplined(s: State) { Flagged(s) && Separate(s) }

  function Carried(s: State): seq<JobId> {
    if LoopCarries(s) then s.loop.due else []
  }

  function Unsifted(s: State): seq<JobId> {
    if s.reload.Sifting? && s.reload.n <= |s.reload.jobs| then s.reload.jobs[s.reload.n..] else []
  }

  /** How often a job occurs in all the places where it can be. */
  ghost function Places(s: State, j: JobId): nat {
    multiset(QueueAt(s, s.cur))[j] + multiset(QueueAt(s, s.cur + 1))[j] +
    multiset(Carried(s))[j] + multiset(Unsifted(s))[j] + s.stopped[j]
  }

  /** Every job that was ever created is in exactly one place, once. */
  ghost predicate Conserved(s: State) {
    forall j: JobId :: Places(s, j) == if j < s.nextId then 1 else 0
  }

  ghost predicate Known(s: State) {
    && (forall j: JobId :: j < s.nextId <==> j in s.time)
    && s.ident.Keys == s.time.Keys == s.runs.Keys == s.moves.Keys
    && SortedBy(s.time, QueueAt(s, s.cur)) && SortedBy(s.time, QueueAt(s, s.cur + 1))
  }

  ghost function JobIdents(s: State, js: seq<JobId>): seq<string>
    requires forall j :: j in js ==> j in s.ident
  {
    seq(|js|, i requires 0 <= i < |js| => s.ident[js[i]])
  }

  /** The new queue has exactly one job for each ident already dealt with. */
  ghost predicate OnePerIdent(ident: map<JobId, string>, q: seq<JobId>, done: set<string>) {
    && (forall j :: j in q ==> j in ident && ident[j] in done)
    && (forall j, k :: j in q && k in q && ident[j] == ident[k] ==> j == k)
    && (forall id :: id in done ==> exists j :: j in q && ident[j] == id)
  }

  /** Of the first n old jobs, the first of each wanted ident is in the new queue and the others
      are stopped. */
  ghost predicate Dealt(s: State, wanted: set<string>, jobs: seq<JobId>, n: nat)
    requires forall j :: j in jobs ==> j in s.ident
  {
    && n <= |jobs|
    && (forall k :: 0 <= k < n && Keeps(JobIdents(s, jobs), wanted, k) ==> jobs[k] in QueueAt(s, s.cur + 1))
    && (forall k :: 0 <= k < n && !Keeps(JobIdents(s, jobs), wanted, k) ==> jobs[k] in s.stopped)
  }

  ghost predicate Progress(s: State) {
    match s.reload
    case Sifting(wanted, jobs, n, rest) =>
      && SortedBy(s.time, jobs) && (forall j :: j in jobs ==> j in s.ident)
      && Dealt(s, wanted, jobs, n)
      && rest == wanted - Elements(JobIdents(s, jobs)[..n])
      && OnePerIdent(s.ident, QueueAt(s, s.cur + 1), wanted - rest)
    case Making(wanted, jobs, rest) =>
      && SortedBy(s.time, jobs) && (forall j :: j in jobs ==> j in s.ident)
      && Dealt(s, wanted, jobs, |jobs|)
      && rest <= wanted
      && OnePerIdent(s.ident, QueueAt(s, s.cur + 1), wanted - rest)
    case _ => true
  }

  /** The job has been run this turn and not yet moved on. */
  predicate Owed(s: State, j: JobId) {
    match s.loop
    case Running(_, due, n) => n <= |due| && j in due[..n]
    case Advancing(_, due, n) => n <= |due| && j in due[n..]
    case _ => false
  }

  /** Every job has been moved on once for each time it was run. */
  ghost predicate Paired(s: State) {
    forall j :: j in s.runs ==> j in s.moves && s.runs[j] == s.moves[j] + if Owed(s, j) then 1 else 0
  }

  ghost predicate Inv(s: State) {
    Disciplined(s) && Conserved(s) && Known(s) && Progress(s) && Paired(s)
  }

  // ----- every step keeps the discipline -----

  lemma QueueMovesKeepDiscipline(s: State, a: Action)
    requires Disciplined(s) && LoopEnabled(s, a) && (a.PopDue? || a.PushBack?)
    ensures Disciplined(AfterLoop(s, a))
  {
  }

  lemma SwapTaken(s: State)
    requires LoopEnabled(s, LoopSwap)
    ensures s.loop.Captured?
    ensures LockedAt(s, s.loop.g) ==> AfterLoop(s, LoopSwap) == s.(loop := Idle)
    ensures !LockedAt(s, s.loop.g) ==>
              AfterLoop(s, LoopSwap) == s.(loop := Holding(s.loop.g, s.loop.now), gens := SetLock(s, s.loop.g, true))
  {
  }

  lemma SwapKeepsFlags(s: State)
    requires Disciplined(s) && LoopEnabled(s, LoopSwap)
    ensures Flagged(AfterLoop(s, LoopSwap))
  {
    SwapTaken(s);
    hide AfterLoop, LoopEnabled;
  }

  lemma SwapKeepsSeparate(s: State)
    requires Disciplined(s) && LoopEnabled(s, LoopSwap)
    ensures Separate(AfterLoop(s, LoopSwap))
  {
    SwapTaken(s);
    hide AfterLoop, LoopEnabled, Flagged;
  }

  lemma SwapKeepsDiscipline(s: State)
    requires Disciplined(s) && LoopEnabled(s, LoopSwap)
    ensures Disciplined(AfterLoop(s, LoopSwap))
  {
    hide Flagged, Separate, AfterLoop;
    SwapKeepsFlags(s);
    SwapKeepsSeparate(s);
  }

  lemma ReleaseKeepsDiscipline(s: State)
    requires Disciplined(s) && LoopEnabled(s, LoopRelease)
    ensures Disciplined(AfterLoop(s, LoopRelease))
  {
  }

  lemma InnerMovesKeepDiscipline(s: State, a: Action)
    requires Disciplined(s) && LoopEnabled(s, a) && (a.Capture? || a.RunOne? || a.AllStarted? || a.AdvanceOne?)
    ensures Disciplined(AfterLoop(s, a))
  {
  }

  lemma LoopKeepsDiscipline(s: State, a: Action)
    requires Disciplined(s) && LoopEnabled(s, a)
    ensures Disciplined(AfterLoop(s, a))
  {
    hide Disciplined, AfterLoop;
    if a.PopDue? || a.PushBack? {
      QueueMovesKeepDiscipline(s, a);
    } else if a.LoopSwap? {
      SwapKeepsDiscipline(s);
    } else if a.LoopRelease? {
      ReleaseKeepsDiscipline(s);
    } else {
      InnerMovesKeepDiscipline(s, a);
    }
  }

  lemma PrefixFits(s: State, n: nat)
    requires s.loop.Holding? && DuePrefix(s.time, QueueAt(s, s.loop.g), s.loop.now, n)
    ensures n <= |QueueAt(s, s.loop.g)|
  {
  }

  predicate IsHandover(a: Action) { a.Begin? || a.ReloadSwap? || a.ReloadRelease? || a.Publish? }

  lemma HandoverKeepsFlags(s: State, a: Action)
    requires Disciplined(s) && ReloadEnabled(s, a) && IsHandover(a)
    ensures Flagged(AfterReload(s, a))
  {
  }

  lemma HandoverKeepsSeparate(s: State, a: Action)
    requires Disciplined(s) && ReloadEnabled(s, a) && IsHandover(a)
    ensures Separate(AfterReload(s, a))
  {
  }

  lemma SiftingKeepsFlags(s: State, a: Action)
    requires Disciplined(s) && ReloadEnabled(s, a) && !IsHandover(a)
    ensures Flagged(AfterReload(s, a))
  {
    hide Pushed;
  }

  lemma SiftingKeepsSeparate(s: State, a: Action)
    requires Disciplined(s) && ReloadEnabled(s, a) && !IsHandover(a)
    ensures Separate(AfterReload(s, a))
  {
    hide Pushed, Flagged;
  }

  lemma ReloadKeepsDiscipline(s: State, a: Action)
    requires Disciplined(s) && ReloadEnabled(s, a)
    ensures Disciplined(AfterReload(s, a))
  {
    hide Flagged, Separate, AfterReload, Pushed;
    if IsHandover(a) {
      HandoverKeepsFlags(s, a);
      HandoverKeepsSeparate(s, a);
    } else {
      SiftingKeepsFlags(s, a);
      SiftingKeepsSeparate(s, a);
    }
  }

  // ----- every step conserves the jobs -----

  lemma LockLeavesQueues(s: State, s': State, g: nat, locked: bool)
    requires s'.gens == SetLock(s, g, locked)
    ensures forall h: nat :: QueueAt(s', h) == QueueAt(s, h)
  {
  }

  lemma QueueSet(s: State, s': State, g: nat, q: seq<JobId>)
    requires s'.gens == SetQueue(s, g, q) && g < |s.gens|
    ensures QueueAt(s', g) == q && forall h: nat :: h != g ==> QueueAt(s', h) == QueueAt(s, h)
  {
  }

  lemma Cut(q: seq<JobId>, n: nat)
    requires n <= |q|
    ensures Splits(q, q[n..], q[..n])
  {
    assert q == q[..n] + q[n..];
  }

  /** Components of Places that an action leaves alone. */
  ghost predicate SamePlaces(s: State, s': State) {
    && QueueAt(s', s'.cur) == QueueAt(s, s.cur) && QueueAt(s', s'.cur + 1) == QueueAt(s, s.cur + 1)
    && Carried(s') == Carried(s) && Unsifted(s') == Unsifted(s) && s'.stopped == s.stopped && s'.nextId == s.nextId
  }

  lemma SamePlacesConserve(s: State, s': State)
    requires Conserved(s) && SamePlaces(s, s')
    ensures Conserved(s')
  {
    hide QueueAt, Carried, Unsifted;
    forall j: JobId ensures Places(s', j) == Places(s, j) {
    }
  }

  /** Jobs moved from one sequence to two, or back. */
  ghost predicate Splits(a: seq<JobId>, b: seq<JobId>, c: seq<JobId>) {
    multiset(a) == multiset(b) + multiset(c)
  }

  lemma SplitCounts(a: seq<JobId>, b: seq<JobId>, c: seq<JobId>, j: JobId)
    requires Splits(a, b, c)
    ensures multiset(a)[j] == multiset(b)[j] + multiset(c)[j]
  {
  }

  lemma PopDueConserves(s: State, n: nat)
    requires Disciplined(s) && Conserved(s) && LoopEnabled(s, PopDue(n))
    ensures Conserved(AfterLoop(s, PopDue(n)))
  {
    DueTaken(s, n);
    HeldIsOld(s);
    hide Flagged, Separate, DuePrefix, QueueAt, SetQueue, Conserved, Splits, LoopEnabled, AfterLoop;
    var s', g := AfterLoop(s, PopDue(n)), s.loop.g;
    var q := QueueAt(s, g);
    QueueSet(s, s', g, q[n..]);
    if n == 0 {
      assert q[0..] == q;
      SamePlacesConserve(s, s');
    } else {
      Cut(q, n);
      MovedConserves(s, s', s, s');
    }
  }

  lemma DueTaken(s: State, n: nat)
    requires LoopEnabled(s, PopDue(n))
    ensures s.loop.Holding? && n <= |QueueAt(s, s.loop.g)|
    ensures var g, q := s.loop.g, QueueAt(s, s.loop.g);
            AfterLoop(s, PopDue(n)) == s.(loop := if n == 0 then Releasing(g) else Running(g, q[..n], 0), gens := SetQueue(s, g, q[n..]))
  {
  }

  /** The loop pops from an existing generation, and a retired one has nothing to pop. */
  lemma HeldIsOld(s: State)
    requires Disciplined(s) && s.loop.Holding?
    ensures s.loop.g < |s.gens| && (QueueAt(s, s.loop.g) != [] ==> s.loop.g == s.cur)
  {
  }

  /** Jobs moved between the published queue and the loop's hands; `a` has them all queued. */
  lemma MovedConserves(s: State, s': State, a: State, b: State)
    requires Conserved(s) && s'.cur == s.cur && s'.nextId == s.nextId && s'.stopped == s.stopped
    requires (a == s && b == s') || (a == s' && b == s)
    requires Splits(QueueAt(a, s.cur), QueueAt(b, s.cur), Carried(b)) && Carried(a) == []
    requires QueueAt(s', s.cur + 1) == QueueAt(s, s.cur + 1) && Unsifted(s') == Unsifted(s)
    ensures Conserved(s')
  {
    hide QueueAt, Carried, Unsifted, Splits;
    forall j: JobId ensures Places(s', j) == Places(s, j) {
      SplitCounts(QueueAt(a, s.cur), QueueAt(b, s.cur), Carried(b), j);
    }
  }

  lemma PushBackConserves(s: State, q: seq<JobId>)
    requires Disciplined(s) && Conserved(s) && LoopEnabled(s, PushBack(q))
    ensures Conserved(AfterLoop(s, PushBack(q)))
  {
    hide SortedBy, QueueAt, SetQueue, Conserved, Flagged;
    var s' := AfterLoop(s, PushBack(q));
    QueueSet(s, s', s.cur, q);
    MovedConserves(s, s', s', s);
  }

  lemma ReleaseTaken(s: State)
    requires LoopEnabled(s, LoopRelease)
    ensures s.loop.Releasing? && AfterLoop(s, LoopRelease) == s.(loop := Idle, gens := SetLock(s, s.loop.g, false))
  {
  }

  lemma LockMovesLeavePlaces(s: State, a: Action)
    requires LoopEnabled(s, a) && (a.LoopSwap? || a.LoopRelease?)
    ensures SamePlaces(s, AfterLoop(s, a))
  {
    hide QueueAt, SetLock, AfterLoop;
    var s' := AfterLoop(s, a);
    if a.LoopSwap? { SwapTaken(s); } else { ReleaseTaken(s); }
    hide LoopEnabled;
    if s'.gens == s.gens {
      SameGens(s, s');
    } else {
      LockLeavesQueues(s, s', s.loop.g, a.LoopSwap?);
    }
  }

  /** The loop's other actions move no job. */
  lemma LoopLeavesPlaces(s: State, a: Action)
    requires LoopEnabled(s, a) && !a.PopDue? && !a.PushBack?
    ensures SamePlaces(s, AfterLoop(s, a))
  {
    if a.LoopSwap? || a.LoopRelease? {
      hide SamePlaces, LoopEnabled, AfterLoop;
      LockMovesLeavePlaces(s, a);
    } else {
      hide QueueAt;
      assert forall g: nat :: QueueAt(AfterLoop(s, a), g) == QueueAt(s, g) by { SameGens(s, AfterLoop(s, a)); }
    }
  }

  lemma SameGens(s: State, s': State)
    requires s'.gens == s.gens
    ensures forall g: nat :: QueueAt(s', g) == QueueAt(s, g)
  {
  }

  lemma LoopConserves(s: State, a: Action)
    requires Disciplined(s) && Conserved(s) && LoopEnabled(s, a)
    ensures Conserved(AfterLoop(s, a))
  {
    hide Conserved, Disciplined, LoopEnabled, AfterLoop, SamePlaces;
    if a.PopDue? {
      PopDueConserves(s, a.n);
    } else if a.PushBack? {
      PushBackConserves(s, a.queue);
    } else {
      LoopLeavesPlaces(s, a);
      SamePlacesConserve(s, AfterLoop(s, a));
    }
  }

  lemma TakeAllConserves(s: State)
    requires Disciplined(s) && Conserved(s) && ReloadEnabled(s, TakeAll)
    ensures Conserved(AfterReload(s, TakeAll))
  {
    var s' := AfterReload(s, TakeAll);
    assert Unsifted(s) == [] && Unsifted(s') == QueueAt(s, s.cur) && Carried(s') == Carried(s);
    hide QueueAt, SetQueue, Carried, Unsifted, Flagged;
    QueueSet(s, s', s.cur, []);
    hide Separate;
    forall j: JobId ensures Places(s', j) == Places(s, j) {
    }
  }

  lemma SiftOneConserves(s: State, a: Action)
    requires Disciplined(s) && Conserved(s) && ReloadEnabled(s, a) && (a.KeepOne? || a.StopOne?)
    ensures Conserved(AfterReload(s, a))
  {
    hide SortedBy, QueueAt, SetQueue, Conserved, Flagged;
    var s' := AfterReload(s, a);
    if a.KeepOne? {
      QueueSet(s, s', s.cur + 1, a.queue);
    } else {
      SameGens(s, s');
    }
    hide Separate;
    assert Unsifted(s) == [NextOld(s)] + Unsifted(s');
    assert Splits(Unsifted(s), [NextOld(s)], Unsifted(s'));
    SiftedConserves(s, s', NextOld(s), a.KeepOne?);
  }

  lemma SiftedConserves(s: State, s': State, x: JobId, kept: bool)
    requires Conserved(s) && s'.cur == s.cur && s'.nextId == s.nextId
    requires QueueAt(s', s.cur) == QueueAt(s, s.cur) && Carried(s') == Carried(s)
    requires Splits(Unsifted(s), [x], Unsifted(s'))
    requires if kept then Splits(QueueAt(s', s.cur + 1), QueueAt(s, s.cur + 1), [x]) && s'.stopped == s.stopped
             else QueueAt(s', s.cur + 1) == QueueAt(s, s.cur + 1) && s'.stopped == s.stopped + multiset([x])
    ensures Conserved(s')
  {
    hide QueueAt, Carried, Unsifted, Splits;
    forall j: JobId ensures Places(s', j) == Places(s, j) {
      SplitCounts(Unsifted(s), [x], Unsifted(s'), j);
      if kept {
        SplitCounts(QueueAt(s', s.cur + 1), QueueAt(s, s.cur + 1), [x], j);
      }
    }
  }

  lemma MakeOneConserves(s: State, a: Action)
    requires Disciplined(s) && Conserved(s) && ReloadEnabled(s, a) && a.MakeOne?
    ensures Conserved(AfterReload(s, a))
  {
    hide SortedBy, QueueAt, SetQueue, Flagged, Conserved;
    var s' := AfterReload(s, a);
    QueueSet(s, s', s.cur + 1, a.queue);
    hide Separate;
    assert Splits(QueueAt(s', s.cur + 1), QueueAt(s, s.cur + 1), [s.nextId]);
    MadeConserves(s, s');
  }

  lemma MadeConserves(s: State, s': State)
    requires Conserved(s) && s'.cur == s.cur && s'.nextId == s.nextId + 1 && s'.stopped == s.stopped
    requires QueueAt(s', s.cur) == QueueAt(s, s.cur) && Carried(s') == Carried(s) && Unsifted(s') == Unsifted(s)
    requires Splits(QueueAt(s', s.cur + 1), QueueAt(s, s.cur + 1), [s.nextId])
    ensures Conserved(s')
  {
    hide QueueAt, Carried, Unsifted, Splits;
    forall j: JobId ensures Places(s', j) == Places(s, j) + if j == s.nextId then 1 else 0 {
      SplitCounts(QueueAt(s', s.cur + 1), QueueAt(s, s.cur + 1), [s.nextId], j);
    }
  }

  lemma PublishConserves(s: State)
    requires Disciplined(s) && Conserved(s) && ReloadEnabled(s, Publish)
    ensures Conserved(AfterReload(s, Publish))
  {
    var s' := AfterReload(s, Publish);
    assert QueueAt(s, s.cur) == [] && QueueAt(s', s'.cur + 1) == [];
    assert QueueAt(s', s'.cur) == QueueAt(s, s.cur + 1) && Carried(s') == Carried(s) && Unsifted(s') == Unsifted(s);
    hide QueueAt, Carried, Unsifted;
    forall j: JobId ensures Places(s', j) == Places(s, j) {
    }
  }

  lemma ReloadConserves(s: State, a: Action)
    requires Disciplined(s) && Conserved(s) && ReloadEnabled(s, a)
    ensures Conserved(AfterReload(s, a))
  {
    hide Conserved;
    if a.TakeAll? {
      TakeAllConserves(s);
    } else if a.KeepOne? || a.StopOne? {
      SiftOneConserves(s, a);
    } else if a.MakeOne? {
      MakeOneConserves(s, a);
    } else if a.Publish? {
      PublishConserves(s);
    } else {
      SamePlacesConserve(s, AfterReload(s, a));
    }
  }

  // ----- queues stay in time order -----

  lemma Occurs(q: seq<JobId>, j: JobId)
    ensures j in q <==> multiset(q)[j] > 0
  {
  }

  /** The job the loop moves on is in no queue. */
  lemma CarriedElsewhere(s: State, j: JobId)
    requires Conserved(s) && j in Carried(s)
    ensures j !in QueueAt(s, s.cur) && j !in QueueAt(s, s.cur + 1) && j !in Unsifted(s) && j !in s.stopped && j < s.nextId
  {
    assert Places(s, j) == if j < s.nextId then 1 else 0;
    Occurs(Carried(s), j);
  }

  lemma SortedPart(time: map<JobId, int>, q: seq<JobId>, n: nat)
    requires SortedBy(time, q) && n <= |q|
    ensures SortedBy(time, q[..n]) && SortedBy(time, q[n..])
  {
  }

  lemma SortedElsewhere(time: map<JobId, int>, q: seq<JobId>, j: JobId, t: int)
    requires SortedBy(time, q) && j !in q
    ensures SortedBy(time[j := t], q)
  {
  }

  /** The tables are as they were. */
  ghost predicate SameTables(s: State, s': State) {
    s'.time == s.time && s'.ident == s.ident && s'.runs.Keys == s.runs.Keys && s'.moves.Keys == s.moves.Keys && s'.nextId == s.nextId
  }

  lemma SameKnown(s: State, s': State)
    requires Known(s) && SameTables(s, s') && SamePlaces(s, s')
    ensures Known(s')
  {
    hide SortedBy, QueueAt;
  }

  lemma LoopKeepsTables(s: State, a: Action)
    requires LoopEnabled(s, a) && !a.AdvanceOne?
    ensures SameTables(s, AfterLoop(s, a))
  {
    hide QueueAt, SetQueue, SetLock, Pushed, DuePrefix;
  }

  lemma AdvanceKnown(s: State, period: int)
    requires Separate(s) && Conserved(s) && Known(s) && LoopEnabled(s, AdvanceOne(period))
    ensures Known(AfterLoop(s, AdvanceOne(period)))
  {
    hide Conserved, SortedBy, QueueAt;
    var j, s' := s.loop.due[s.loop.n], AfterLoop(s, AdvanceOne(period));
    SameGens(s, s');
    CarriedElsewhere(s, j);
    SortedElsewhere(s.time, QueueAt(s, s.cur), j, s.time[j] + period);
    SortedElsewhere(s.time, QueueAt(s, s.cur + 1), j, s.time[j] + period);
  }

  lemma LoopKeepsKnown(s: State, a: Action)
    requires Disciplined(s) && Conserved(s) && Known(s) && LoopEnabled(s, a)
    ensures Known(AfterLoop(s, a))
  {
    hide Conserved, Known, Separate, Flagged, LoopEnabled, AfterLoop, SamePlaces, SameTables;
    if a.PopDue? {
      PopDueKnown(s, a.n);
    } else if a.PushBack? {
      PushBackKnown(s, a.queue);
    } else if a.AdvanceOne? {
      AdvanceKnown(s, a.period);
    } else {
      LoopLeavesPlaces(s, a);
      LoopKeepsTables(s, a);
      SameKnown(s, AfterLoop(s, a));
    }
  }

  lemma PopDueKnown(s: State, n: nat)
    requires Disciplined(s) && Known(s) && LoopEnabled(s, PopDue(n))
    ensures Known(AfterLoop(s, PopDue(n)))
  {
    PrefixFits(s, n);
    HeldIsOld(s);
    hide SortedBy, DuePrefix, QueueAt, SetQueue;
    var s', q := AfterLoop(s, PopDue(n)), QueueAt(s, s.loop.g);
    QueueSet(s, s', s.loop.g, q[n..]);
    hide Flagged;
    if s.loop.g == s.cur {
      SortedPart(s.time, q, n);
    }
  }

  lemma PushBackKnown(s: State, q: seq<JobId>)
    requires Disciplined(s) && Known(s) && LoopEnabled(s, PushBack(q))
    ensures Known(AfterLoop(s, PushBack(q)))
  {
    hide SortedBy, QueueAt, SetQueue, Flagged;
    QueueSet(s, AfterLoop(s, PushBack(q)), s.cur, q);
  }

  /** Where the two queues come from in a step of Reload that makes no job. */
  lemma ReloadQueues(s: State, a: Action)
    requires Separate(s) && ReloadEnabled(s, a) && !a.MakeOne?
    ensures var s' := AfterReload(s, a);
            && (QueueAt(s', s'.cur) in {[], QueueAt(s, s.cur), QueueAt(s, s.cur + 1)})
            && (QueueAt(s', s'.cur + 1) in {[], QueueAt(s, s.cur + 1)} || (a.KeepOne? && QueueAt(s', s'.cur + 1) == a.queue))
  {
    hide Pushed;
  }

  lemma ReloadKeepsTables(s: State, a: Action)
    requires ReloadEnabled(s, a) && !a.MakeOne?
    ensures SameTables(s, AfterReload(s, a))
  {
    hide Pushed, QueueAt, SetQueue, SetLock;
  }

  lemma KeptSorted(s: State, q: seq<JobId>)
    requires ReloadEnabled(s, KeepOne(q))
    ensures SortedBy(s.time, q)
  {
  }

  lemma MakeOneKnown(s: State, a: Action)
    requires Separate(s) && Conserved(s) && Known(s) && ReloadEnabled(s, a) && a.MakeOne?
    ensures Known(AfterReload(s, a))
  {
    FreshElsewhere(s);
    hide SortedBy, Conserved, QueueAt, SetQueue;
    QueueSet(s, AfterReload(s, a), s.cur + 1, a.queue);
    SortedElsewhere(s.time, QueueAt(s, s.cur), s.nextId, a.now);
  }

  lemma ReloadKeepsKnown(s: State, a: Action)
    requires Disciplined(s) && Conserved(s) && Known(s) && ReloadEnabled(s, a)
    ensures Known(AfterReload(s, a))
  {
    hide SortedBy, Conserved, Separate, Flagged, QueueAt, ReloadEnabled, AfterReload;
    if a.MakeOne? {
      MakeOneKnown(s, a);
    } else {
      NothingSorted(s.time);
      ReloadQueues(s, a);
      ReloadKeepsTables(s, a);
      if a.KeepOne? {
        KeptSorted(s, a.queue);
      }
    }
  }

  lemma NothingSorted(time: map<JobId, int>)
    ensures SortedBy(time, [])
  {
  }

  lemma FreshElsewhere(s: State)
    requires Conserved(s)
    ensures s.nextId !in QueueAt(s, s.cur) && s.nextId !in QueueAt(s, s.cur + 1) && s.nextId !in Unsifted(s) && s.nextId !in s.stopped
  {
    assert Places(s, s.nextId) == 0;
    Occurs(QueueAt(s, s.cur), s.nextId);
    Occurs(QueueAt(s, s.cur + 1), s.nextId);
    Occurs(Unsifted(s), s.nextId);
  }

  // ----- Reload's progress -----

  lemma OnePerIdentKeep(ident: map<JobId, string>, q: seq<JobId>, j: JobId, q': seq<JobId>, done: set<string>)
    requires OnePerIdent(ident, q, done) && j in ident && ident[j] !in done
    requires multiset(q') == multiset(q) + multiset([j])
    ensures OnePerIdent(ident, q', done + {ident[j]})
  {
    QueueGrows(q, j, q');
  }

  lemma OnePerIdentNew(ident: map<JobId, string>, q: seq<JobId>, done: set<string>, j: JobId, id: string)
    requires OnePerIdent(ident, q, done) && j !in ident
    ensures OnePerIdent(ident[j := id], q, done)
  {
  }

  lemma QueueGrows(q: seq<JobId>, j: JobId, q': seq<JobId>)
    requires multiset(q') == multiset(q) + multiset([j])
    ensures forall x :: x in q' <==> x in q || x == j
  {
    forall x ensures x in q' <==> x in q || x == j {
      Occurs(q', x);
      Occurs(q, x);
    }
  }

  /** One more old job dealt with: kept when it is the first of a wanted ident, else stopped. */
  lemma DealtStep(s: State, s': State, wanted: set<string>, jobs: seq<JobId>, n: nat)
    requires (forall j :: j in jobs ==> j in s.ident) && s'.ident == s.ident && n < |jobs| && Dealt(s, wanted, jobs, n)
    requires forall k :: 0 <= k < |jobs| && jobs[k] in QueueAt(s, s.cur + 1) ==> jobs[k] in QueueAt(s', s'.cur + 1)
    requires s.stopped <= s'.stopped
    requires if Keeps(JobIdents(s, jobs), wanted, n) then jobs[n] in QueueAt(s', s'.cur + 1) else jobs[n] in s'.stopped
    ensures Dealt(s', wanted, jobs, n + 1)
  {
  }

  lemma KeepOneProgress(s: State, q: seq<JobId>)
    requires Disciplined(s) && Progress(s) && ReloadEnabled(s, KeepOne(q))
    ensures Progress(AfterReload(s, KeepOne(q)))
  {
    hide SortedBy, OnePerIdent, Dealt, Keeps;
    var s' := AfterReload(s, KeepOne(q));
    var wanted, jobs, n := s.reload.wanted, s.reload.jobs, s.reload.n;
    var j, idents := jobs[n], JobIdents(s, jobs);
    DealtFits(s, wanted, jobs, n);
    assert JobIdents(s', jobs) == idents && QueueAt(s', s.cur + 1) == q;
    hide Disciplined;
    KeepsMeans(idents, wanted, n);
    OnePerIdentKeep(s.ident, QueueAt(s, s.cur + 1), j, q, wanted - s.reload.rest);
    assert wanted - s'.reload.rest == wanted - s.reload.rest + {s.ident[j]};
    QueueGrows(QueueAt(s, s.cur + 1), j, q);
    DealtStep(s, s', wanted, jobs, n);
  }

  lemma DealtFits(s: State, wanted: set<string>, jobs: seq<JobId>, n: nat)
    requires (forall j :: j in jobs ==> j in s.ident) && Dealt(s, wanted, jobs, n)
    ensures n <= |jobs|
  {
  }

  lemma StopOneProgress(s: State)
    requires Progress(s) && ReloadEnabled(s, StopOne)
    ensures Progress(AfterReload(s, StopOne))
  {
    hide SortedBy, OnePerIdent, Dealt, Keeps;
    var s' := AfterReload(s, StopOne);
    var wanted, jobs, n := s.reload.wanted, s.reload.jobs, s.reload.n;
    var idents := JobIdents(s, jobs);
    DealtFits(s, wanted, jobs, n);
    KeepsMeans(idents, wanted, n);
    SameIdents(s, s', jobs);
    assert jobs[n] in s'.stopped && idents[n] == s.ident[jobs[n]];
    hide JobIdents, Elements;
    assert s'.reload.rest == wanted - Elements(idents[..n + 1]);
    DealtStep(s, s', wanted, jobs, n);
  }

  lemma SameIdents(s: State, s': State, jobs: seq<JobId>)
    requires (forall j :: j in jobs ==> j in s.ident) && s'.ident == s.ident
    ensures JobIdents(s', jobs) == JobIdents(s, jobs)
  {
  }

  lemma MakeOneProgress(s: State, id: string, now: int, q: seq<JobId>)
    requires Disciplined(s) && Known(s) && Progress(s) && ReloadEnabled(s, MakeOne(id, now, q))
    ensures Progress(AfterReload(s, MakeOne(id, now, q)))
  {
    hide SortedBy, OnePerIdent;
    var s' := AfterReload(s, MakeOne(id, now, q));
    var wanted, jobs := s.reload.wanted, s.reload.jobs;
    assert s.nextId !in s.ident;
    SortedElsewhere(s.time, jobs, s.nextId, now);
    assert JobIdents(s', jobs) == JobIdents(s, jobs) && QueueAt(s', s.cur + 1) == q;
    OnePerIdentNew(s.ident, QueueAt(s, s.cur + 1), wanted - s.reload.rest, s.nextId, id);
    OnePerIdentKeep(s'.ident, QueueAt(s, s.cur + 1), s.nextId, q, wanted - s.reload.rest);
    assert wanted - s'.reload.rest == wanted - s.reload.rest + {id};
    QueueGrows(QueueAt(s, s.cur + 1), s.nextId, q);
  }

  lemma TakeAllProgress(s: State)
    requires Disciplined(s) && Known(s) && ReloadEnabled(s, TakeAll)
    ensures Progress(AfterReload(s, TakeAll))
  {
  }

  lemma ReloadKeepsProgress(s: State, a: Action)
    requires Disciplined(s) && Known(s) && Progress(s) && ReloadEnabled(s, a)
    ensures Progress(AfterReload(s, a))
  {
    hide Disciplined, SortedBy, OnePerIdent, Pushed, Known;
    match a
    case TakeAll => TakeAllProgress(s);
    case KeepOne(q) => KeepOneProgress(s, q);
    case StopOne => StopOneProgress(s);
    case MakeOne(id, now, q) => MakeOneProgress(s, id, now, q);
    case ReloadRelease => ReleaseProgress(s);
    case _ =>
  }

  lemma ReleaseProgress(s: State)
    requires Progress(s) && ReloadEnabled(s, ReloadRelease)
    ensures Progress(AfterReload(s, ReloadRelease))
  {
    hide SortedBy, OnePerIdent;
    var s' := AfterReload(s, ReloadRelease);
    assert JobIdents(s', s.reload.jobs) == JobIdents(s, s.reload.jobs);
    assert QueueAt(s', s.cur + 1) == QueueAt(s, s.cur + 1);
  }

  /** What Reload's progress depends on, untouched. */
  lemma SameProgress(s: State, s': State)
    requires Progress(s) && s'.reload == s.reload && s'.cur == s.cur && s'.ident == s.ident && s'.stopped == s.stopped
    requires s.reload.Sifting? || s.reload.Making? ==>
               s'.time == s.time && QueueAt(s', s.cur + 1) == QueueAt(s, s.cur + 1)
    ensures Progress(s')
  {
    hide SortedBy, OnePerIdent, QueueAt;
    if s.reload.Sifting? || s.reload.Making? {
      assert JobIdents(s', s.reload.jobs) == JobIdents(s, s.reload.jobs);
    }
  }

  lemma PopDueStaysOff(s: State, n: nat)
    requires Separate(s) && LoopEnabled(s, PopDue(n))
    ensures var s' := AfterLoop(s, PopDue(n));
            s'.time == s.time && QueueAt(s', s.cur + 1) == QueueAt(s, s.cur + 1)
  {
    PrefixFits(s, n);
    hide QueueAt, SetQueue, DuePrefix;
    QueueSet(s, AfterLoop(s, PopDue(n)), s.loop.g, QueueAt(s, s.loop.g)[n..]);
  }

  lemma NothingToMove(s: State, a: Action)
    requires LoopEnabled(s, a) && !LoopCarries(s)
    ensures !a.PushBack? && !a.AdvanceOne?
  {
  }

  /** While Reload sifts or makes, the loop moves no check time and does not touch the new queue. */
  lemma LoopStaysOff(s: State, a: Action)
    requires Separate(s) && LoopEnabled(s, a) && (s.reload.Sifting? || s.reload.Making?)
    ensures var s' := AfterLoop(s, a);
            s'.time == s.time && QueueAt(s', s.cur + 1) == QueueAt(s, s.cur + 1)
  {
    assert !LoopCarries(s);
    hide AfterLoop, LoopEnabled, QueueAt;
    NothingToMove(s, a);
    if a.PopDue? {
      PopDueStaysOff(s, a.n);
    } else {
      LoopLeavesPlaces(s, a);
      LoopKeepsTables(s, a);
    }
  }

  lemma LoopKeepsReload(s: State, a: Action)
    requires LoopEnabled(s, a)
    ensures var s' := AfterLoop(s, a);
            s'.reload == s.reload && s'.cur == s.cur && s'.ident == s.ident && s'.stopped == s.stopped && s'.nextId == s.nextId
  {
    hide QueueAt, SetQueue, SetLock, Pushed, DuePrefix;
  }

  lemma LoopKeepsProgress(s: State, a: Action)
    requires Disciplined(s) && Progress(s) && LoopEnabled(s, a)
    ensures Progress(AfterLoop(s, a))
  {
    hide Progress, Separate, Flagged, AfterLoop, LoopEnabled, QueueAt;
    LoopKeepsReload(s, a);
    if s.reload.Sifting? || s.reload.Making? {
      LoopStaysOff(s, a);
    }
    SameProgress(s, AfterLoop(s, a));
  }

  // ----- runs and moves stay paired -----

  /** The loop carries no job twice. */
  lemma CarriedOnce(s: State, a: nat, b: nat)
    requires Conserved(s) && a < b < |Carried(s)|
    ensures Carried(s)[a] != Carried(s)[b]
  {
    var q := Carried(s);
    var j := q[a];
    assert Places(s, j) <= 1;
    assert q == q[..b] + q[b..];
    assert multiset(q) == multiset(q[..b]) + multiset(q[b..]);
    Occurs(q[..b], j);
    Occurs(q[b..], j);
    assert q[..b][a] == j && q[b..][0] == q[b];
  }

  /** The job in turn occurs nowhere else in the loop's hands. */
  lemma TurnOnce(s: State, j: JobId)
    requires Separate(s) && Conserved(s) && LoopCarries(s) && s.loop.n < |s.loop.due|
    ensures var due, n := s.loop.due, s.loop.n;
            && (j in due[..n + 1] <==> j in due[..n] || j == due[n])
            && (j in due[n..] <==> j in due[n + 1..] || j == due[n])
            && due[n] !in due[..n] && due[n] !in due[n + 1..]
  {
    hide Conserved;
    var due, n := s.loop.due, s.loop.n;
    assert due[..n + 1] == due[..n] + [due[n]] && due[n..] == [due[n]] + due[n + 1..];
    forall k | 0 <= k < |due| && k != n ensures due[k] != due[n] {
      if k < n { CarriedOnce(s, k, n); } else { CarriedOnce(s, n, k); }
    }
  }

  lemma RunOnePaired(s: State)
    requires Separate(s) && Conserved(s) && Known(s) && Paired(s) && LoopEnabled(s, RunOne)
    ensures Paired(AfterLoop(s, RunOne))
  {
    hide Conserved, SortedBy, Separate;
    forall j | j in s.runs ensures Owed(AfterLoop(s, RunOne), j) <==> Owed(s, j) || j == s.loop.due[s.loop.n] {
      TurnOnce(s, j);
    }
    assert !Owed(s, s.loop.due[s.loop.n]) by { TurnOnce(s, s.loop.due[s.loop.n]); }
  }

  lemma AdvanceOnePaired(s: State, period: int)
    requires Separate(s) && Conserved(s) && Known(s) && Paired(s) && LoopEnabled(s, AdvanceOne(period))
    ensures Paired(AfterLoop(s, AdvanceOne(period)))
  {
    hide Conserved, SortedBy, Separate;
    var s', x := AfterLoop(s, AdvanceOne(period)), s.loop.due[s.loop.n];
    forall j | j in s.runs ensures Owed(s, j) <==> Owed(s', j) || j == x {
      TurnOnce(s, j);
    }
    assert !Owed(s', x) by { TurnOnce(s, x); }
  }

  lemma LoopKeepsPaired(s: State, a: Action)
    requires Disciplined(s) && Conserved(s) && Known(s) && Paired(s) && LoopEnabled(s, a)
    ensures Paired(AfterLoop(s, a))
  {
    hide Conserved, Known, Pushed, DuePrefix;
    if a.RunOne? || a.AdvanceOne? {
      hide Separate, Flagged, Paired, LoopEnabled, AfterLoop;
      if a.RunOne? { RunOnePaired(s); } else { AdvanceOnePaired(s, a.period); }
    } else if a.AllStarted? {
      assert s.loop.due[..s.loop.n] == s.loop.due && s.loop.due[0..] == s.loop.due;
    }
  }

  lemma ReloadKeepsPaired(s: State, a: Action)
    requires Disciplined(s) && Conserved(s) && Known(s) && Paired(s) && ReloadEnabled(s, a)
    ensures Paired(AfterReload(s, a))
  {
  }

  // ----- every run -----

  lemma InitInv(s: State)
    requires Init(s)
    ensures Inv(s)
  {
  }

  lemma StepKeepsInv(s: State, a: Action, s': State)
    requires Inv(s) && Step(s, a, s')
    ensures Inv(s')
  {
    hide Disciplined, Conserved, Known, Progress, Paired, LoopEnabled, ReloadEnabled, AfterLoop, AfterReload;
    if LoopEnabled(s, a) && s' == AfterLoop(s, a) {
      LoopKeepsDiscipline(s, a);
      LoopConserves(s, a);
      LoopKeepsKnown(s, a);
      LoopKeepsProgress(s, a);
      LoopKeepsPaired(s, a);
    } else {
      ReloadKeepsDiscipline(s, a);
      ReloadConserves(s, a);
      ReloadKeepsKnown(s, a);
      ReloadKeepsProgress(s, a);
      ReloadKeepsPaired(s, a);
    }
  }

  lemma {:induction false} RunKeepsInv(ss: seq<State>, acts: seq<Action>, n: nat)
    requires IsRun(ss, acts) && n <= |acts|
    ensures Inv(ss[n])
  {
    hide Inv, Step;
    if n == 0 {
      InitInv(ss[0]);
    } else {
      RunKeepsInv(ss, acts, n - 1);
      StepKeepsInv(ss[n - 1], acts[n - 1], ss[n]);
    }
  }

  /** In every state of every interleaving, each job ever created is in exactly one place and
      there once: the published queue, the queue being built, the loop's hands, Reload's hands, or
      stopped. In particular none is lost, none is in two queues, and no job that the loop is
      running or moving on is being sifted or stopped. */
  lemma NoJobLostOrDuplicated(ss: seq<State>, acts: seq<Action>, n: nat, j: JobId)
    requires IsRun(ss, acts) && n <= |acts|
    ensures Places(ss[n], j) == if j < ss[n].nextId then 1 else 0
    ensures forall g :: 0 <= g < ss[n].cur ==> QueueAt(ss[n], g) == []
    ensures LoopCarries(ss[n]) ==> ss[n].reload.Resting? || ss[n].reload.Spinning?
  {
    RunKeepsInv(ss, acts, n);
  }

  /** Under every interleaving a job's check time has moved on exactly as often as the job has been
      run, except that during a turn of the loop a job may have been run and not moved on yet. */
  lemma OneMovePerRun(ss: seq<State>, acts: seq<Action>, n: nat, j: JobId)
    requires IsRun(ss, acts) && n <= |acts| && j < ss[n].nextId
    ensures var s := ss[n];
            j in s.runs && j in s.moves && s.runs[j] == s.moves[j] + if Owed(s, j) then 1 else 0
    ensures !LoopCarries(ss[n]) ==> ss[n].runs[j] == ss[n].moves[j]
  {
    RunKeepsInv(ss, acts, n);
  }

  // ----- what a reload took and when jobs are due -----

  predicate Deals(s: State) { s.reload.Sifting? || s.reload.Making? }

  lemma ReloadKeepsTimes(s: State, a: Action)
    requires Known(s) && ReloadEnabled(s, a)
    ensures forall j :: j in s.time ==> j in AfterReload(s, a).time && AfterReload(s, a).time[j] == s.time[j]
  {
    hide Pushed, QueueAt, SetQueue, SetLock, SortedBy;
  }

  lemma DealingGoesOn(s: State, a: Action)
    requires ReloadEnabled(s, a) && Deals(s) && Deals(AfterReload(s, a))
    ensures var s' := AfterReload(s, a);
            s'.cur == s.cur && s'.reload.jobs == s.reload.jobs && s'.reload.wanted == s.reload.wanted
  {
    hide Pushed, QueueAt, SetQueue, SetLock;
  }

  lemma DealingStarts(s: State, a: Action)
    requires ReloadEnabled(s, a) && !Deals(s) && Deals(AfterReload(s, a))
    ensures a == TakeAll && s.reload.HoldingOld?
    ensures var s' := AfterReload(s, a);
            s'.cur == s.cur && s'.time == s.time && s'.reload.jobs == QueueAt(s, s.cur) && s'.reload.wanted == s.reload.wanted
  {
    hide Pushed, QueueAt, SetQueue, SetLock;
  }

  /** The reload in state s' deals with the jobs that s had published, and their check times are
      still those of s. */
  ghost predicate DealsWith(s: State, s': State) {
    && s.reload.HoldingOld? && Deals(s')
    && s'.cur == s.cur && s'.reload.jobs == QueueAt(s, s.cur) && s'.reload.wanted == s.reload.wanted
    && forall j :: j in s'.reload.jobs ==> j in s.time && j in s'.time && s'.time[j] == s.time[j]
  }

  lemma DealsWithStep(s0: State, s: State, a: Action, s': State)
    requires DealsWith(s0, s) && Inv(s) && Step(s, a, s') && Deals(s')
    ensures DealsWith(s0, s')
  {
    hide LoopEnabled, ReloadEnabled, AfterLoop, AfterReload, QueueAt, Conserved, Progress, Paired, Known, Flagged, Separate;
    if LoopEnabled(s, a) && s' == AfterLoop(s, a) {
      LoopKeepsReload(s, a);
      LoopStaysOff(s, a);
    } else {
      DealingGoesOn(s, a);
      ReloadKeepsTimes(s, a);
    }
  }

  lemma DealsWithStart(s: State, a: Action, s': State)
    requires Inv(s) && Step(s, a, s') && !Deals(s) && Deals(s')
    ensures a == TakeAll && DealsWith(s, s')
  {
    hide LoopEnabled, ReloadEnabled, AfterLoop, AfterReload, QueueAt, Conserved, Progress, Paired, Flagged, Separate;
    if LoopEnabled(s, a) && s' == AfterLoop(s, a) {
      LoopKeepsReload(s, a);
      assert false;
    } else {
      DealingStarts(s, a);
    }
  }

  /** When the reload in progress took the old queue. */
  lemma {:induction false} TakenAt(ss: seq<State>, acts: seq<Action>, n: nat) returns (m: nat)
    requires IsRun(ss, acts) && n <= |acts| && Deals(ss[n])
    ensures m < n && acts[m] == TakeAll && DealsWith(ss[m], ss[n])
    ensures forall i :: m < i <= n ==> Deals(ss[i])
  {
    hide Inv, Step, DealsWith;
    assert Init(ss[0]);
    assert n > 0;
    RunKeepsInv(ss, acts, n - 1);
    assert Step(ss[n - 1], acts[n - 1], ss[n]);
    if Deals(ss[n - 1]) {
      m := TakenAt(ss, acts, n - 1);
      DealsWithStep(ss[m], ss[n - 1], acts[n - 1], ss[n]);
    } else {
      m := n - 1;
      DealsWithStart(ss[m], acts[m], ss[n]);
    }
  }

  /** The step moves job j on. */
  predicate MovesOn(s: State, a: Action, j: JobId) {
    a.AdvanceOne? && s.loop.Advancing? && s.loop.n < |s.loop.due| && s.loop.due[s.loop.n] == j
  }

  /** By how much in all. */
  ghost function Moved(ss: seq<State>, acts: seq<Action>, m: nat, n: nat, j: JobId): int
    requires m <= n <= |acts| && |ss| == |acts| + 1
    decreases n
  {
    if m == n then 0
    else Moved(ss, acts, m, n - 1, j) + (if MovesOn(ss[n - 1], acts[n - 1], j) then acts[n - 1].period else 0)
  }

  lemma LoopMovesOn(s: State, a: Action, j: JobId)
    requires Known(s) && LoopEnabled(s, a) && j in s.time
    ensures var s' := AfterLoop(s, a);
            && s'.nextId == s.nextId && j in s'.time && j in s'.moves && j in s.moves
            && s'.time[j] == s.time[j] + (if MovesOn(s, a, j) then a.period else 0)
            && s'.moves[j] == s.moves[j] + (if MovesOn(s, a, j) then 1 else 0)
  {
    hide Pushed, DuePrefix, QueueAt, SetQueue, SetLock, SortedBy;
  }

  lemma ReloadMovesNone(s: State, a: Action, j: JobId)
    requires Known(s) && ReloadEnabled(s, a) && j in s.time
    ensures var s' := AfterReload(s, a);
            && s'.nextId >= s.nextId && j in s'.time && j in s'.moves && j in s.moves
            && s'.time[j] == s.time[j] && s'.moves[j] == s.moves[j] && !MovesOn(s, a, j)
  {
    hide Pushed, QueueAt, SetQueue, SetLock, SortedBy;
  }

  lemma StepMovesOn(s: State, a: Action, s': State, j: JobId)
    requires Known(s) && Step(s, a, s') && j < s.nextId
    ensures j < s'.nextId && j in s.time && j in s'.time && j in s.moves && j in s'.moves
    ensures s'.time[j] == s.time[j] + (if MovesOn(s, a, j) then a.period else 0)
    ensures s'.moves[j] == s.moves[j] + (if MovesOn(s, a, j) then 1 else 0)
  {
    assert j in s.time;
    hide LoopEnabled, ReloadEnabled, AfterLoop, AfterReload, Known, MovesOn;
    if LoopEnabled(s, a) && s' == AfterLoop(s, a) {
      LoopMovesOn(s, a, j);
    } else {
      ReloadMovesNone(s, a, j);
    }
  }

  /** Under every interleaving, a job's check time is what it was at any earlier moment plus the
      periods it has been moved on by since; no reload in between adds or drops one. */
  lemma {:induction false} CheckTimeIsSum(ss: seq<State>, acts: seq<Action>, m: nat, n: nat, j: JobId)
    requires IsRun(ss, acts) && m <= n <= |acts| && j < ss[m].nextId
    ensures j in ss[m].time && j in ss[n].time && j < ss[n].nextId
    ensures ss[n].time[j] == ss[m].time[j] + Moved(ss, acts, m, n, j)
  {
    hide Step, Known, MovesOn;
    if m == n {
      RunKeepsInv(ss, acts, n);
      KnownTime(ss[n], j);
    } else {
      CheckTimeIsSum(ss, acts, m, n - 1, j);
      RunKeepsInv(ss, acts, n - 1);
      StepMovesOn(ss[n - 1], acts[n - 1], ss[n], j);
    }
  }

  lemma KnownTime(s: State, j: JobId)
    requires Known(s) && j < s.nextId
    ensures j in s.time && j in s.moves && j in s.runs
  {
  }

  /** The job is moved on by this period only. */
  ghost predicate MovesBy(ss: seq<State>, acts: seq<Action>, j: JobId, period: int)
    requires |ss| == |acts| + 1
  {
    forall i :: 0 <= i < |acts| && MovesOn(ss[i], acts[i], j) ==> acts[i].period == period
  }

  lemma {:induction false} MovedByPeriod(ss: seq<State>, acts: seq<Action>, m: nat, n: nat, j: JobId, period: int)
    requires IsRun(ss, acts) && m <= n <= |acts| && j < ss[m].nextId && MovesBy(ss, acts, j, period)
    ensures j < ss[n].nextId && j in ss[m].moves && j in ss[n].moves
    ensures Moved(ss, acts, m, n, j) == (ss[n].moves[j] - ss[m].moves[j]) * period
  {
    hide Step, Known, MovesOn;
    if m == n {
      RunKeepsInv(ss, acts, n);
      KnownTime(ss[n], j);
    } else {
      MovedByPeriod(ss, acts, m, n - 1, j, period);
      RunKeepsInv(ss, acts, n - 1);
      StepMovesOn(ss[n - 1], acts[n - 1], ss[n], j);
      var before: int, first: int := ss[n - 1].moves[j], ss[m].moves[j];
      OneMoreTimes(before - first, period);
    }
  }

  /** A job made during the run is always due at its creation time plus its period times the
      number of its runs (times its moves, while the loop has run it and not moved it on yet),
      however many reloads it lives through. */
  lemma NoDriftAcrossReloads(ss: seq<State>, acts: seq<Action>, m: nat, n: nat, j: JobId, period: int)
    requires IsRun(ss, acts) && m < n <= |acts| && acts[m].MakeOne? && j == ss[m].nextId
    requires MovesBy(ss, acts, j, period)
    ensures var s := ss[n];
            && j in s.time && j in s.moves && j in s.runs
            && s.time[j] == acts[m].now + s.moves[j] * period
            && (!LoopCarries(s) ==> s.time[j] == acts[m].now + s.runs[j] * period)
  {
    hide Step, Init, MovesBy, Moved, Owed;
    RunStep(ss, acts, m);
    JobMade(ss[m], acts[m], ss[m + 1]);
    CheckTimeIsSum(ss, acts, m + 1, n, j);
    MovedByPeriod(ss, acts, m + 1, n, j, period);
    OneMovePerRun(ss, acts, n, j);
  }

  lemma RunStep(ss: seq<State>, acts: seq<Action>, n: nat)
    requires IsRun(ss, acts) && n < |acts|
    ensures Step(ss[n], acts[n], ss[n + 1])
  {
    hide Step, Init;
  }

  lemma PublishEnds(s: State)
    requires ReloadEnabled(s, Publish)
    ensures s.reload.Making? && Deals(s)
  {
  }

  lemma PublishStep(s: State, s': State)
    requires Step(s, Publish, s')
    ensures ReloadEnabled(s, Publish) && s' == AfterReload(s, Publish)
  {
    hide AfterLoop, AfterReload;
  }

  lemma JobMade(s: State, a: Action, s': State)
    requires Step(s, a, s') && a.MakeOne?
    ensures s'.nextId == s.nextId + 1 && s.nextId in s'.time && s'.time[s.nextId] == a.now
    ensures s.nextId in s'.moves && s'.moves[s.nextId] == 0
  {
    hide Pushed, QueueAt, SetQueue;
  }

  /** When Reload publishes, whatever the loop did meanwhile and whichever state it still holds:
      the loop carries no job; every job ever created is in the new queue once or was stopped
      once; the new queue is in time order and has exactly one job for each ident of the new list;
      and of the jobs the old queue held when it was taken, at step m of this reload, the earliest
      of each wanted ident goes on with the check time it had then and every other is stopped. */
  lemma ReloadFinishes(ss: seq<State>, acts: seq<Action>, n: nat) returns (m: nat)
    requires IsRun(ss, acts) && n < |acts| && acts[n] == Publish
    ensures m < n && acts[m] == TakeAll && forall i :: m < i <= n ==> Deals(ss[i])
    ensures ss[m].reload.HoldingOld?
    ensures var olds, wanted, s' := QueueAt(ss[m], ss[m].cur), ss[m].reload.wanted, ss[n + 1];
            && !LoopCarries(s')
            && var q := QueueAt(s', s'.cur);
            && (forall j: JobId :: multiset(q)[j] + s'.stopped[j] == if j < s'.nextId then 1 else 0)
            && SortedBy(s'.time, q) && OnePerIdent(s'.ident, q, wanted)
            && (forall k :: 0 <= k < |olds| ==> OldJobSettled(s', wanted, olds, q, k))
            && (forall j :: j in olds ==> j in ss[m].time && j in s'.time && s'.time[j] == ss[m].time[j])
  {
    hide Step, Init, AfterReload, ReloadEnabled, QueueAt, Carried, Unsifted, SortedBy, OnePerIdent, OldJobSettled, Deals, Progress, Known, Paired, Flagged, Separate;
    RunKeepsInv(ss, acts, n);
    RunKeepsInv(ss, acts, n + 1);
    var s, s' := ss[n], ss[n + 1];
    RunStep(ss, acts, n);
    PublishStep(s, s');
    PublishSettles(s);
    PublishEnds(s);
    m := TakenAt(ss, acts, n);
    PublishMoves(s);
    forall j: JobId ensures multiset(QueueAt(s', s'.cur))[j] + s'.stopped[j] == if j < s'.nextId then 1 else 0 {
      assert Places(s', j) == if j < s'.nextId then 1 else 0;
    }
  }

  ghost predicate OldJobSettled(s: State, wanted: set<string>, jobs: seq<JobId>, q: seq<JobId>, k: nat) {
    && k < |jobs| && (forall j :: j in jobs ==> j in s.ident && j in s.time)
    && if Keeps(JobIdents(s, jobs), wanted, k) then
         jobs[k] in q && forall i :: 0 <= i < |jobs| && s.ident[jobs[i]] == s.ident[jobs[k]] ==> s.time[jobs[k]] <= s.time[jobs[i]]
       else jobs[k] in s.stopped
  }

  /** The state Publish leaves differs in what it publishes only. */
  lemma PublishMoves(s: State)
    requires Disciplined(s) && ReloadEnabled(s, Publish)
    ensures var s' := AfterReload(s, Publish);
            && !LoopCarries(s') && QueueAt(s', s'.cur + 1) == [] && Unsifted(s') == [] && Carried(s') == []
            && QueueAt(s', s'.cur) == QueueAt(s, s.cur + 1) && s'.stopped == s.stopped && SameTables(s, s')
  {
  }

  lemma EarliestKept(s: State, wanted: set<string>, jobs: seq<JobId>, k: nat)
    requires SortedBy(s.time, jobs) && (forall j :: j in jobs ==> j in s.ident)
    requires k < |jobs| && Keeps(JobIdents(s, jobs), wanted, k)
    ensures forall i :: 0 <= i < |jobs| && s.ident[jobs[i]] == s.ident[jobs[k]] ==> s.time[jobs[k]] <= s.time[jobs[i]]
  {
    var idents := JobIdents(s, jobs);
    KeepsMeans(idents, wanted, k);
    forall i | 0 <= i < |jobs| && s.ident[jobs[i]] == s.ident[jobs[k]] ensures k <= i {
      assert idents[i] == idents[k];
    }
  }

  lemma AllDealt(s: State)
    requires Known(s) && Progress(s) && ReloadEnabled(s, Publish)
    ensures var q := QueueAt(s, s.cur + 1);
            && SortedBy(s.time, q) && OnePerIdent(s.ident, q, s.reload.wanted) && SortedBy(s.time, s.reload.jobs)
            && (forall j :: j in s.reload.jobs ==> j in s.ident && j in s.time)
            && Dealt(s, s.reload.wanted, s.reload.jobs, |s.reload.jobs|)
  {
    hide SortedBy, OnePerIdent, Dealt, QueueAt;
    assert s.reload.wanted - s.reload.rest == s.reload.wanted;
  }

  lemma JobSettled(s: State, s': State, wanted: set<string>, jobs: seq<JobId>, k: nat)
    requires k < |jobs| && (forall j :: j in jobs ==> j in s.ident && j in s.time)
    requires SortedBy(s.time, jobs) && Dealt(s, wanted, jobs, |jobs|) && SameTables(s, s') && s'.stopped == s.stopped
    ensures OldJobSettled(s', wanted, jobs, QueueAt(s, s.cur + 1), k)
  {
    hide SortedBy, QueueAt, Keeps;
    SameIdents(s, s', jobs);
    if Keeps(JobIdents(s, jobs), wanted, k) {
      EarliestKept(s, wanted, jobs, k);
    }
  }

  lemma PublishSettles(s: State)
    requires Inv(s) && ReloadEnabled(s, Publish)
    ensures var s' := AfterReload(s, Publish);
            && !LoopCarries(s') && QueueAt(s', s'.cur + 1) == [] && Unsifted(s') == [] && Carried(s') == []
            && SortedBy(s'.time, QueueAt(s', s'.cur)) && OnePerIdent(s'.ident, QueueAt(s', s'.cur), s.reload.wanted)
            && forall k :: 0 <= k < |s.reload.jobs| ==> OldJobSettled(s', s.reload.wanted, s.reload.jobs, QueueAt(s', s'.cur), k)
  {
    hide Known, Progress, Conserved, Paired, Separate, Flagged, AfterReload, QueueAt, SortedBy, OnePerIdent, Dealt, OldJobSettled;
    var s' := AfterReload(s, Publish);
    AllDealt(s);
    PublishMoves(s);
    forall k | 0 <= k < |s.reload.jobs| ensures OldJobSettled(s', s.reload.wanted, s.reload.jobs, QueueAt(s', s'.cur), k) {
      JobSettled(s, s', s.reload.wanted, s.reload.jobs, k);
    }
  }

  // ----- a job that is run was due -----

  predicate Waits(s: State) { s.loop.Captured? || s.loop.Holding? }

  lemma NowStays(s: State, a: Action, s': State)
    requires Step(s, a, s') && Waits(s')
    ensures Waits(s) ==> s'.loop.now == s.loop.now
    ensures !Waits(s) ==> a.Capture? && s'.loop.now == a.now
  {
    hide QueueAt, SetQueue, SetLock, Pushed, DuePrefix;
  }

  /** The tick at which the loop captured its state. */
  lemma {:induction false} CapturedAt(ss: seq<State>, acts: seq<Action>, n: nat) returns (c: nat)
    requires IsRun(ss, acts) && n <= |acts| && Waits(ss[n])
    ensures c < n && acts[c].Capture? && ss[n].loop.now == acts[c].now
  {
    hide Step;
    assert Init(ss[0]) && n > 0;
    RunStep(ss, acts, n - 1);
    NowStays(ss[n - 1], acts[n - 1], ss[n]);
    if Waits(ss[n - 1]) {
      c := CapturedAt(ss, acts, n - 1);
    } else {
      c := n - 1;
    }
  }

  /** The loop in state s' is running the jobs that were due in s, and their check times are still
      those of s. */
  ghost predicate RunsDue(s: State, s': State) {
    && s.loop.Holding? && s'.loop.Running?
    && forall j :: j in s'.loop.due ==> j in s.time && s.time[j] <= s.loop.now && j in s'.time && s'.time[j] == s.time[j]
  }

  lemma TurnStarts(s: State, a: Action, s': State)
    requires Step(s, a, s') && !s.loop.Running? && s'.loop.Running?
    ensures a.PopDue? && RunsDue(s, s')
  {
    hide SetQueue, SetLock, Pushed;
  }

  lemma RunOneKeepsTurn(s: State, a: Action)
    requires LoopEnabled(s, a) && s.loop.Running? && AfterLoop(s, a).loop.Running?
    ensures var s' := AfterLoop(s, a); s'.loop.due == s.loop.due && s'.time == s.time
  {
    hide QueueAt, SetQueue, SetLock, Pushed, DuePrefix;
  }

  lemma ReloadKeepsLoop(s: State, a: Action)
    requires ReloadEnabled(s, a)
    ensures AfterReload(s, a).loop == s.loop
  {
    hide QueueAt, SetQueue, SetLock, Pushed;
  }

  lemma TurnGoesOn(s0: State, s: State, a: Action, s': State)
    requires RunsDue(s0, s) && Known(s) && Step(s, a, s') && s'.loop.Running?
    ensures RunsDue(s0, s')
  {
    hide LoopEnabled, ReloadEnabled, AfterLoop, AfterReload, Known;
    if LoopEnabled(s, a) && s' == AfterLoop(s, a) {
      RunOneKeepsTurn(s, a);
    } else {
      ReloadKeepsLoop(s, a);
      ReloadKeepsTimes(s, a);
    }
  }

  lemma {:induction false} PoppedAt(ss: seq<State>, acts: seq<Action>, n: nat) returns (m: nat)
    requires IsRun(ss, acts) && n <= |acts| && ss[n].loop.Running?
    ensures m < n && acts[m].PopDue? && RunsDue(ss[m], ss[n])
  {
    hide Step, RunsDue, Known;
    assert Init(ss[0]) && n > 0;
    RunStep(ss, acts, n - 1);
    if ss[n - 1].loop.Running? {
      m := PoppedAt(ss, acts, n - 1);
      RunKeepsInv(ss, acts, n - 1);
      TurnGoesOn(ss[m], ss[n - 1], acts[n - 1], ss[n]);
    } else {
      m := n - 1;
      TurnStarts(ss[m], acts[m], ss[n]);
    }
  }

  /** Under every interleaving a job that is run is due: its check time is not after the time of the
      tick that the loop is working on, the one it captured its state at. */
  lemma RunWasDue(ss: seq<State>, acts: seq<Action>, n: nat) returns (c: nat)
    requires IsRun(ss, acts) && n < |acts| && acts[n] == RunOne
    ensures var s, s' := ss[n], ss[n + 1];
            && s.loop.Running? && s.loop.n < |s.loop.due|
            && var j := s.loop.due[s.loop.n];
            && c < n && acts[c].Capture? && j in s.time && s.time[j] <= acts[c].now
            && j in s.runs && s'.runs == s.runs[j := s.runs[j] + 1]
  {
    RunStep(ss, acts, n);
    RunsOne(ss[n], ss[n + 1]);
    hide Step, Init;
    var m := PoppedAt(ss, acts, n);
    c := CapturedAt(ss, acts, m);
  }

  lemma RunsOne(s: State, s': State)
    requires Step(s, RunOne, s')
    ensures s.loop.Running? && s.loop.n < |s.loop.due|
    ensures var j := s.loop.due[s.loop.n]; j in s.runs && s'.runs == s.runs[j := s.runs[j] + 1]
  {
    hide QueueAt, SetQueue, SetLock, Pushed, DuePrefix;
  }

  ghost predicate AllAfter(time: map<JobId, int>, q: seq<JobId>, now: int) {
    forall j :: j in q ==> j in time && time[j] > now
  }

  lemma PopsDue(s: State, n: nat, s': State)
    requires Known(s) && Separate(s) && Step(s, PopDue(n), s')
    ensures s.loop.Holding?
    ensures AllAfter(s'.time, QueueAt(s', s.loop.g), s.loop.now)
  {
    DueTaken(s, n);
    var q := QueueAt(s, s.loop.g);
    assert s.loop.g != s.cur ==> q == [];
    assert forall k :: n <= k < |q| ==> s.time[q[n]] <= s.time[q[k]];
    hide AfterLoop;
  }

  /** Nothing due is left behind: what stays in the captured queue has a later check time. */
  lemma NothingDueStays(ss: seq<State>, acts: seq<Action>, n: nat) returns (c: nat)
    requires IsRun(ss, acts) && n < |acts| && acts[n].PopDue?
    ensures ss[n].loop.Holding? && c < n && acts[c].Capture?
    ensures AllAfter(ss[n + 1].time, QueueAt(ss[n + 1], ss[n].loop.g), acts[c].now)
  {
    RunKeepsInv(ss, acts, n);
    RunStep(ss, acts, n);
    hide Step, Init, Known, Separate, Flagged, Conserved, Progress, Paired, QueueAt;
    PopsDue(ss[n], acts[n].n, ss[n + 1]);
    c := CapturedAt(ss, acts, n);
  }

  // ----- neither side gets stuck -----

  lemma {:induction false} LongestDue(time: map<JobId, int>, q: seq<JobId>, now: int, start: nat) returns (n: nat)
    requires start <= |q| && (forall j :: j in q ==> j in time) && forall j :: j in q[..start] ==> time[j] <= now
    ensures DuePrefix(time, q, now, n)
    decreases |q| - start
  {
    n := start;
    if start < |q| && time[q[start]] <= now {
      assert q[..start + 1] == q[..start] + [q[start]];
      n := LongestDue(time, q, now, start + 1);
    }
  }

  lemma FitsAt(time: map<JobId, int>, q: seq<JobId>, j: JobId, n: nat)
    requires SortedBy(time, q) && j in time && n <= |q|
    requires n > 0 ==> time[q[n - 1]] <= time[j]
    requires n < |q| ==> time[j] <= time[q[n]]
    ensures SortedBy(time, q[..n] + [j] + q[n..])
  {
  }

  lemma OneMore(q: seq<JobId>, j: JobId, n: nat)
    requires n <= |q|
    ensures multiset(q[..n] + [j] + q[n..]) == multiset(q) + multiset([j])
  {
    assert q == q[..n] + q[n..];
  }

  lemma {:induction false} SortedInsert(time: map<JobId, int>, q: seq<JobId>, j: JobId, n: nat) returns (r: seq<JobId>)
    requires SortedBy(time, q) && j in time && n <= |q| && (n < |q| ==> time[j] <= time[q[n]])
    ensures SortedBy(time, r) && multiset(r) == multiset(q) + multiset([j])
    decreases n
  {
    if n > 0 && time[q[n - 1]] > time[j] {
      r := SortedInsert(time, q, j, n - 1);
    } else {
      r := q[..n] + [j] + q[n..];
      FitsAt(time, q, j, n);
      OneMore(q, j, n);
    }
  }

  /** There always is a queue that a push can leave. */
  lemma {:induction false} SomePush(time: map<JobId, int>, q: seq<JobId>, js: seq<JobId>) returns (r: seq<JobId>)
    requires SortedBy(time, q) && forall j :: j in js ==> j in time
    ensures Pushed(time, q, js, r)
  {
    hide SortedBy;
    if js == [] {
      r := q;
    } else {
      var front, j := js[..|js| - 1], js[|js| - 1];
      var p := SomePush(time, q, front);
      r := SortedInsert(time, p, j, |p|);
      assert js == front + [j];
    }
  }

  /** In every reachable state the loop can take a step. */
  lemma LoopNeverStuck(s: State) returns (a: Action)
    requires Inv(s)
    ensures LoopEnabled(s, a)
  {
    hide Progress, Paired, SortedBy, Conserved, Flagged;
    match s.loop
    case Idle => a := Capture(0);
    case Captured(_, _) => a := LoopSwap;
    case Holding(g, now) =>
      QueueKnown(s, g);
      var n := LongestDue(s.time, QueueAt(s, g), now, 0);
      a := PopDue(n);
    case Running(_, due, n) =>
      if n < |due| {
        CarriedElsewhere(s, due[n]);
        a := RunOne;
      } else {
        a := AllStarted;
      }
    case Advancing(g, due, n) =>
      if n < |due| {
        CarriedElsewhere(s, due[n]);
        a := AdvanceOne(1);
      } else {
        forall j | j in due ensures j in s.time {
          CarriedElsewhere(s, j);
        }
        var q := SomePush(s.time, QueueAt(s, g), due);
        a := PushBack(q);
      }
    case Releasing(_) => a := LoopRelease;
  }

  lemma QueueKnown(s: State, g: nat)
    requires Separate(s) && Known(s) && g <= s.cur
    ensures forall j :: j in QueueAt(s, g) ==> j in s.time
  {
  }

  /** Reload can take a step unless it waits for the flag, which then the loop holds and gives back. */
  lemma ReloadNeverStuck(s: State) returns (a: Action)
    requires Inv(s)
    ensures ReloadEnabled(s, a) || (s.reload.Spinning? && LoopHolds(s, s.cur))
  {
    hide Paired, SortedBy, Conserved;
    match s.reload
    case Resting => a := Begin({});
    case Spinning(_) => a := ReloadSwap;
    case HoldingOld(_) => a := TakeAll;
    case Sifting(_, jobs, n, rest) =>
      if n < |jobs| {
        assert jobs[n] in jobs;
        a := SiftNext(s);
      } else {
        a := ReloadRelease;
      }
    case Making(_, _, rest) =>
      if rest == {} {
        a := Publish;
      } else {
        a := MakeNext(s);
      }
  }

  lemma SiftNext(s: State) returns (a: Action)
    requires Known(s) && s.reload.Sifting? && s.reload.n < |s.reload.jobs| && NextOld(s) in s.ident
    ensures ReloadEnabled(s, a)
  {
    if s.ident[NextOld(s)] in s.reload.rest {
      var q := SomePush(s.time, QueueAt(s, s.cur + 1), [NextOld(s)]);
      a := KeepOne(q);
    } else {
      a := StopOne;
    }
  }

  lemma MakeNext(s: State) returns (a: Action)
    requires Known(s) && Conserved(s) && s.reload.Making? && s.reload.rest != {}
    ensures ReloadEnabled(s, a)
  {
    var id :| id in s.reload.rest;
    FreshElsewhere(s);
    hide Conserved;
    SortedElsewhere(s.time, QueueAt(s, s.cur + 1), s.nextId, 0);
    var q := SomePush(s.time[s.nextId := 0], QueueAt(s, s.cur + 1), [s.nextId]);
    a := MakeOne(id, 0, q);
  }

  /** Under every interleaving there is no deadlock: the loop can always go on, and Reload can unless
      the loop holds the flag it waits for. */
  lemma NoDeadlock(ss: seq<State>, acts: seq<Action>, n: nat) returns (a: Action, b: Action)
    requires IsRun(ss, acts) && n <= |acts|
    ensures LoopEnabled(ss[n], a)
    ensures ReloadEnabled(ss[n], b) || (ss[n].reload.Spinning? && LoopHolds(ss[n], ss[n].cur))
  {
    RunKeepsInv(ss, acts, n);
    hide Step, Init, Inv, LoopEnabled, ReloadEnabled;
    a := LoopNeverStuck(ss[n]);
    b := ReloadNeverStuck(ss[n]);
  }

  lemma {:induction false} CountedUp(n: nat, j: JobId)
    ensures multiset(seq(n, i => i))[j] == if j < n then 1 else 0
  {
    if n > 0 {
      CountedUp(n - 1, j);
      assert seq(n, i => i) == seq(n - 1, i => i) + [n - 1];
    }
  }

  /** Runs start with any jobs at all: any number, any idents, and any check times in queue order. */
  lemma StartState(idents: seq<string>, times: seq<int>) returns (s: State)
    requires |idents| == |times| && forall i, j :: 0 <= i <= j < |times| ==> times[i] <= times[j]
    ensures Init(s) && s.nextId == |idents|
    ensures forall i :: 0 <= i < |idents| ==> s.ident[i] == idents[i] && s.time[i] == times[i]
    ensures IsRun([s], [])
  {
    var n := |idents|;
    var q := seq(n, i => i);
    var ident := map j: JobId | j < n :: idents[j];
    var zero := map j | j in ident :: 0;
    s := State([Gen(q, false)], 0, Idle, Resting, multiset{}, n, ident, map j: JobId | j < n :: times[j], zero, zero);
    forall j: JobId ensures multiset(q)[j] == if j < n then 1 else 0 {
      CountedUp(n, j);
    }
  }
}
