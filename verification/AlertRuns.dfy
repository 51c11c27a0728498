/** What holds over every run of ticks, acknowledgements and rule edits. A run starts from empty
    tables; each event changes the tables by one step of the model. */
module AlertRuns {
  import opened Options
  import opened Labels
  import opened LabelsJson
  import opened AlertModel

  /** The clock reads later than Go's zero time and earlier than the year 10000. */
  predicate ClockOk(t: int) { SECOND <= t < (MAX_SECOND + 1) * SECOND }

  /** That is every reading from one second after the zero time to the end of the year 9999. */
  lemma ClockReadings(t: int)
    ensures ClockOk(t) <==> 1_000_000_000 <= t < (9999 * 365 + 9999 / 4 - 9999 / 100 + 9999 / 400) * 86_400 * 1_000_000_000
  {
  }

  ghost predicate EventOk(e: Event) {
    match e
    case Tick(_, _, now, end, readings) =>
      && ClockOk(now) && ClockOk(end)
      && forall fp :: now <= readings(fp).recordedAt <= readings(fp).notifiedAt <= end
    case Acknowledge(_, _, now, _) => ClockOk(now)
    case _ => true
  }

  predicate IsTimed(e: Event) { e.Tick? || e.Acknowledge? }

  function EndOf(e: Event): int
    requires IsTimed(e)
  {
    if e.Tick? then e.end else e.now
  }

  /** The clock never goes back from one event to a later one. */
  ghost predicate Chronological(es: seq<Event>) {
    && (forall i :: 0 <= i < |es| ==> EventOk(es[i]))
    && forall i, j :: 0 <= i < j < |es| && IsTimed(es[i]) && IsTimed(es[j]) ==> EndOf(es[i]) <= es[j].now
  }

  const EMPTY_WORLD := World(map[], map[], [], [])

  ghost predicate IsRun(hash: string -> string, ws: seq<World>, es: seq<Event>) {
    Leads(hash, ws, es) && ws[0] == EMPTY_WORLD
  }

  // ----- the same run seen by one rule and one instance -----

  ghost function RuleAt(es: seq<Event>, r: int): Option<AlertRule> {
    if es == [] then None
    else
      var before := RuleAt(es[..|es| - 1], r);
      match es[|es| - 1]
      case CreateRule(rule) => if rule.id == r then Some(rule) else before
      case EditRule(rule) => if rule.id == r && before.Some? then Some(rule) else before
      case DeleteRule(id) => if id == r then None else before
      case _ => before
  }

  ghost function CellAt(hash: string -> string, es: seq<Event>, r: int, fp: string): Cell {
    if es == [] then Cell(None, [], [])
    else
      var front := es[..|es| - 1];
      StepCell(hash, es[|es| - 1], RuleAt(front, r), r, fp, CellAt(hash, front, r, fp))
  }

  /** Whatever a run does to the tables, one instance's part is a fold over the events. */
  lemma {:induction false} RunCell(hash: string -> string, ws: seq<World>, es: seq<Event>, r: int, fp: string)
    requires IsRun(hash, ws, es)
    ensures Get(ws[|es|].rules, r) == RuleAt(es, r)
    ensures CellOf(hash, ws[|es|], r, fp) == CellAt(hash, es, r, fp)
  {
    hide StepCell;
    if es != [] {
      RunCell(hash, ws[..|es|], es[..|es| - 1], r, fp);
    }
  }

  /** Clock readings in range, and no rule id created while it exists. */
  ghost predicate Admissible(es: seq<Event>) {
    es == [] ||
    (var front, e := es[..|es| - 1], es[|es| - 1];
     Admissible(front) && EventOk(e) && (e.CreateRule? ==> RuleAt(front, e.rule.id).None?))
  }

  lemma {:induction false} RunAdmissible(hash: string -> string, ws: seq<World>, es: seq<Event>)
    requires IsRun(hash, ws, es) && forall i :: 0 <= i < |es| ==> EventOk(es[i])
    ensures Admissible(es)
  {
    if es != [] {
      var front, e := es[..|es| - 1], es[|es| - 1];
      RunAdmissible(hash, ws[..|es|], front);
      assert Next(hash, ws[|es| - 1], e, ws[|es|]);
      if e.CreateRule? {
        RunCell(hash, ws[..|es|], front, e.rule.id, "");
      }
    }
  }

  /** The first n events of a run are a run. */
  lemma RunPrefix(hash: string -> string, ws: seq<World>, es: seq<Event>, n: nat)
    requires IsRun(hash, ws, es) && Chronological(es) && n <= |es|
    ensures IsRun(hash, ws[..n + 1], es[..n]) && Chronological(es[..n])
  {
  }

  // ----- stored rows keep their shape -----

  predicate ColumnOk(c: Option<int>) { c.Some? ==> 1 <= c.value <= MAX_SECOND }

  /** A pending row has only pending_since, a firing row only firing_since (and a last
      notification), an ok row neither; a silence is always accompanied by an acknowledgement. */
  ghost predicate RowOk(row: Row) {
    && ColumnOk(row.pendingSince) && ColumnOk(row.firingSince)
    && ColumnOk(row.acknowledgedAt) && ColumnOk(row.lastNotifiedAt)
    && (row.pendingSince.Some? <==> row.status == Pending)
    && (row.firingSince.Some? <==> row.status == Firing)
    && (row.status == Firing ==> row.lastNotifiedAt.Some?)
    && (row.silenceUntil.Some? ==> row.acknowledgedAt.Some?)
  }

  lemma ClockColumn(t: int)
    requires ClockOk(t)
    ensures ColumnOk(FormatTime(Some(t)))
  {
  }

  /** A column written from the clock reads back as its second, and never as the zero time. */
  lemma ColumnReads(c: Option<int>)
    requires ColumnOk(c)
    ensures ParseTime(c) == if c.None? then None else Some(c.value * SECOND)
    ensures IsSet(ParseTime(c)) <==> c.Some?
    ensures c.Some? ==> FormatTime(ParseTime(c)) == c
  {
  }

  lemma PresentKeepsRow(rule: AlertRule, fp: string, inst: Instance, now: int, r: Readings, row: Option<Row>)
    requires row.Some? ==> RowOk(row.value)
    requires ClockOk(now) && ClockOk(r.notifiedAt)
    ensures RowOk(PresentDelta(rule, fp, inst, now, r, row).row)
  {
    hide Encoded;
    ClockColumn(now);
    ClockColumn(r.notifiedAt);
    if row.Some? {
      ColumnReads(row.value.pendingSince);
      ColumnReads(row.value.firingSince);
      ColumnReads(row.value.acknowledgedAt);
    }
  }

  lemma EventKeepsRow(hash: string -> string, e: Event, rule: Option<AlertRule>, r: int, fp: string, c: Cell)
    requires EventOk(e)
    requires c.row.Some? ==> RowOk(c.row.value)
    ensures var c' := StepCell(hash, e, rule, r, fp, c); c'.row.Some? ==> RowOk(c'.row.value)
  {
    hide Encoded, DecodeLabels, CurrentOf, PresentDelta;
    if e.Tick? && rule.Some? && e.answer.Some? && fp in CurrentOf(hash, e.answer.value) {
      PresentKeepsRow(rule.value, fp, CurrentOf(hash, e.answer.value)[fp], e.now, e.readings(fp), c.row);
    }
  }

  lemma {:induction false} RowsKeepShape(hash: string -> string, es: seq<Event>, r: int, fp: string)
    requires Admissible(es)
    ensures CellAt(hash, es, r, fp).row.Some? ==> RowOk(CellAt(hash, es, r, fp).row.value)
  {
    if es != [] {
      var front := es[..|es| - 1];
      RowsKeepShape(hash, front, r, fp);
      EventKeepsRow(hash, es[|es| - 1], RuleAt(front, r), r, fp, CellAt(hash, front, r, fp));
    }
  }

  /** In every reachable table, every row has its shape. */
  lemma ReachableRowsOk(hash: string -> string, ws: seq<World>, es: seq<Event>, k: (int, string))
    requires IsRun(hash, ws, es) && Chronological(es)
    requires k in ws[|es|].states
    ensures RowOk(ws[|es|].states[k])
  {
    RunAdmissible(hash, ws, es);
    RunCell(hash, ws, es, k.0, k.1);
    RowsKeepShape(hash, es, k.0, k.1);
  }

  /** Hence the silence tests of evaluateRule never decide anything: a row whose silence is set
      has its acknowledgement set, and that is tested first. A silence that runs out does not
      bring notifications back. */
  lemma SilenceNeverDecides(hash: string -> string, ws: seq<World>, es: seq<Event>, k: (int, string))
    requires IsRun(hash, ws, es) && Chronological(es)
    requires k in ws[|es|].states
    ensures var h := ReadState(k.1, ws[|es|].states[k]); IsSet(h.silenceUntil) ==> IsSet(h.acknowledgedAt)
  {
    hide DecodeLabels;
    ReachableRowsOk(hash, ws, es, k);
    ColumnReads(ws[|es|].states[k].acknowledgedAt);
  }

  // ----- status is a function of the query history -----

  /** One successful query of the rule: when, and whether the instance was in its result. */
  datatype Sighting = Sighting(now: int, present: bool)

  /** The successful queries of rule r since it was last edited, as they concern fp. Failed
      queries, acknowledgements and other rules' events leave no trace. */
  ghost function Sightings(hash: string -> string, es: seq<Event>, r: int, fp: string): seq<Sighting> {
    if es == [] then []
    else
      var front := es[..|es| - 1];
      var before := Sightings(hash, front, r, fp);
      match es[|es| - 1]
      case Tick(id, answer, now, _, _) =>
        if id == r && RuleAt(front, r).Some? && answer.Some? then
          before + [Sighting(now, fp in CurrentOf(hash, answer.value))]
        else before
      case EditRule(rule) => if rule.id == r then [] else before
      case DeleteRule(id) => if id == r then [] else before
      case _ => before
  }

  /** Index of the first sighting of the unbroken presence that reaches the end. */
  function RunStart(s: seq<Sighting>): (i: nat)
    requires s != [] && s[|s| - 1].present
    ensures i < |s| && forall j :: i <= j < |s| ==> s[j].present
    ensures i == 0 || !s[i - 1].present
  {
    if |s| == 1 || !s[|s| - 2].present then |s| - 1 else RunStart(s[..|s| - 1])
  }

  /** The condition for firing at sighting j of a presence that began at sighting i. */
  predicate Due(d: int, s: seq<Sighting>, i: nat, j: nat)
    requires i <= j < |s|
  {
    d == 0 || (j > i && Sub(s[j].now, FloorSec(s[i].now) * SECOND) >= DurationNs(d))
  }

  function FirstDue(d: int, s: seq<Sighting>, i: nat): (r: Option<nat>)
    requires i < |s|
    ensures r.Some? ==> i <= r.value < |s| && Due(d, s, i, r.value)
    ensures r.Some? ==> forall j: nat :: i <= j < r.value ==> !Due(d, s, i, j)
    ensures r.None? ==> forall j: nat :: i <= j < |s| ==> !Due(d, s, i, j)
  {
    var earlier := if i < |s| - 1 then FirstDue(d, s[..|s| - 1], i) else None;
    assert forall j: nat :: i <= j < |s| - 1 ==> (Due(d, s, i, j) <==> Due(d, s[..|s| - 1], i, j));
    if earlier.Some? then earlier
    else if Due(d, s, i, |s| - 1) then Some(|s| - 1)
    else None
  }

  datatype Phase = Inactive | PendingFrom(since: int) | FiringFrom(since: int)

  /** What the query history says the row should be. */
  function ExpectedPhase(d: int, s: seq<Sighting>): Phase {
    if s == [] || !s[|s| - 1].present then Inactive
    else
      var i := RunStart(s);
      match FirstDue(d, s, i)
      case Some(j) => FiringFrom(FloorSec(s[j].now))
      case None => PendingFrom(FloorSec(s[i].now))
  }

  ghost predicate HasPhase(row: Option<Row>, phase: Phase) {
    match phase
    case Inactive => !IsActive(row)
    case PendingFrom(t) => row.Some? && row.value.status == Pending && row.value.pendingSince == Some(t)
    case FiringFrom(t) => row.Some? && row.value.status == Firing && row.value.firingSince == Some(t)
  }

  function NextPhase(d: int, phase: Phase, x: Sighting): Phase {
    if !x.present then Inactive
    else
      match phase
      case Inactive => if d == 0 then FiringFrom(FloorSec(x.now)) else PendingFrom(FloorSec(x.now))
      case PendingFrom(t) =>
        if Sub(x.now, t * SECOND) >= DurationNs(d) then FiringFrom(FloorSec(x.now)) else phase
      case FiringFrom(_) => phase
  }

  lemma ExpectedPhaseStep(d: int, s: seq<Sighting>, x: Sighting)
    ensures ExpectedPhase(d, s + [x]) == NextPhase(d, ExpectedPhase(d, s), x)
  {
  }

  /** The row machine moves exactly as the phase does. */
  lemma TickMovesPhase(rule: AlertRule, current: map<string, Instance>, now: int, readings: string -> Readings,
                       fp: string, c: Cell, phase: Phase)
    requires ClockOk(now) && HasPhase(c.row, phase)
    requires c.row.Some? ==> RowOk(c.row.value)
    ensures HasPhase(TickCell(rule, current, now, readings, fp, c).row,
                     NextPhase(rule.duration, phase, Sighting(now, fp in current)))
  {
    hide Encoded, DecodeLabels, Sub, DurationNs;
    if c.row.Some? {
      ColumnReads(c.row.value.pendingSince);
      ColumnReads(c.row.value.firingSince);
    }
  }

  lemma {:induction false} PhaseFollows(hash: string -> string, es: seq<Event>, r: int, fp: string)
    requires Admissible(es)
    ensures RuleAt(es, r).Some? ==>
              HasPhase(CellAt(hash, es, r, fp).row, ExpectedPhase(RuleAt(es, r).value.duration, Sightings(hash, es, r, fp)))
    ensures RuleAt(es, r).None? ==> CellAt(hash, es, r, fp).row.None? && Sightings(hash, es, r, fp) == []
  {
    hide CurrentOf, TickCell, AckRow, ExpectedPhase, NextPhase;
    if es != [] {
      var front, e := es[..|es| - 1], es[|es| - 1];
      var c, rule, s := CellAt(hash, front, r, fp), RuleAt(front, r), Sightings(hash, front, r, fp);
      PhaseFollows(hash, front, r, fp);
      RowsKeepShape(hash, front, r, fp);
      NoSightings();
      match e
      case Tick(id, answer, now, end, readings) =>
        if id == r && rule.Some? && answer.Some? {
          var current := CurrentOf(hash, answer.value);
          TickMovesPhase(rule.value, current, now, readings, fp, c, ExpectedPhase(rule.value.duration, s));
          ExpectedPhaseStep(rule.value.duration, s, Sighting(now, fp in current));
        }
      case Acknowledge(id, f, now, silenceUntil) =>
        if c.row.Some? { AckKeepsPhase(c.row.value, now, silenceUntil, rule, s); }
      case CreateRule(_) =>
      case EditRule(_) =>
      case DeleteRule(_) =>
    }
  }

  lemma NoSightings()
    ensures forall d :: ExpectedPhase(d, []) == Inactive
  {
  }

  lemma AckKeepsPhase(row: Row, now: int, silenceUntil: Option<int>, rule: Option<AlertRule>, s: seq<Sighting>)
    ensures forall phase :: HasPhase(Some(AckRow(row, now, silenceUntil)), phase) == HasPhase(Some(row), phase)
  {
  }

  // the simple law for ordinary durations

  ghost predicate TickedAt(es: seq<Event>, t: int) {
    exists k :: 0 <= k < |es| && es[k].Tick? && es[k].now == t
  }

  lemma TickedBefore(es: seq<Event>, t: int)
    requires es != [] && Chronological(es) && TickedAt(es[..|es| - 1], t)
    ensures TickedAt(es, t)
    ensures es[|es| - 1].Tick? ==> t <= es[|es| - 1].now
  {
    var front := es[..|es| - 1];
    var k :| 0 <= k < |front| && front[k].Tick? && front[k].now == t;
    assert es[k] == front[k] && EventOk(es[k]);
    assert es[k].readings("").recordedAt <= es[k].readings("").notifiedAt;
  }

  ghost predicate InOrder(s: seq<Sighting>) {
    forall i, j :: 0 <= i <= j < |s| ==> s[i].now <= s[j].now
  }

  lemma {:induction false} SightingsInOrder(hash: string -> string, es: seq<Event>, r: int, fp: string)
    requires Chronological(es)
    ensures InOrder(Sightings(hash, es, r, fp))
    ensures forall x :: x in Sightings(hash, es, r, fp) ==> TickedAt(es, x.now)
  {
    hide CurrentOf, RuleAt;
    if es != [] {
      var front, e := es[..|es| - 1], es[|es| - 1];
      SightingsInOrder(hash, front, r, fp);
      var s, s' := Sightings(hash, front, r, fp), Sightings(hash, es, r, fp);
      forall x | x in s ensures TickedAt(es, x.now) && (e.Tick? ==> x.now <= e.now) {
        TickedBefore(es, x.now);
      }
      if e.Tick? {
        assert es[|es| - 1].now == e.now;
        assert TickedAt(es, e.now);
        assert forall i :: 0 <= i < |s| ==> s[i] in s;
      }
    }
  }

  lemma OrdinaryDuration(d: int)
    requires 0 <= d <= MAX_DURATION_SECONDS
    ensures DurationNs(d) == d * SECOND
  {
  }

  /** With times in order, an ordinary duration has been met at some sighting exactly when it is
      met at the last one. */
  lemma DueAtLast(d: int, s: seq<Sighting>)
    requires s != [] && s[|s| - 1].present && 0 <= d <= MAX_DURATION_SECONDS
    requires InOrder(s)
    ensures FirstDue(d, s, RunStart(s)).Some? <==>
              s[|s| - 1].now - FloorSec(s[RunStart(s)].now) * SECOND >= d * SECOND
  {
    OrdinaryDuration(d);
    hide DurationNs;
    var i, n := RunStart(s), |s| - 1;
    if d > 0 && FirstDue(d, s, i).Some? {
      assert s[FirstDue(d, s, i).value].now <= s[n].now;
    }
    if d == 0 {
      assert Due(d, s, i, i) && s[i].now <= s[n].now;
    } else if s[n].now - FloorSec(s[i].now) * SECOND >= d * SECOND {
      assert i < n;
      assert Due(d, s, i, n);
    }
  }

  /** Sighting j is the first of the unbroken presence by which it has lasted d seconds. */
  ghost predicate FiringBegins(d: int, s: seq<Sighting>, j: nat)
    requires s != [] && s[|s| - 1].present
  {
    var i := RunStart(s);
    var t0 := s[i].now / 1_000_000_000 * 1_000_000_000;
    && i <= j < |s| && s[j].now - t0 >= d * 1_000_000_000
    && forall m :: i <= m < j ==> s[m].now - t0 < d * 1_000_000_000
  }

  lemma DueIff(d: int, s: seq<Sighting>, i: nat, j: nat)
    requires i <= j < |s| && 0 <= d <= MAX_DURATION_SECONDS && s[i].now <= s[j].now
    ensures Due(d, s, i, j) <==> s[j].now - s[i].now / SECOND * SECOND >= d * SECOND
  {
    OrdinaryDuration(d);
  }

  lemma FirstDueBegins(d: int, s: seq<Sighting>)
    requires s != [] && s[|s| - 1].present && 0 <= d <= MAX_DURATION_SECONDS && InOrder(s)
    requires FirstDue(d, s, RunStart(s)).Some?
    ensures FiringBegins(d, s, FirstDue(d, s, RunStart(s)).value)
  {
    hide Due, FirstDue, RunStart;
    var i := RunStart(s);
    var j := FirstDue(d, s, i).value;
    forall m: nat | i <= m <= j ensures Due(d, s, i, m) <==> s[m].now - s[i].now / SECOND * SECOND >= d * SECOND {
      DueIff(d, s, i, m);
    }
  }

  /** What a row with the expected phase says, for any duration and for an ordinary one. */
  lemma PhaseOfRow(row: Option<Row>, d: int, s: seq<Sighting>)
    requires HasPhase(row, ExpectedPhase(d, s)) && InOrder(s)
    ensures IsActive(row) <==> s != [] && s[|s| - 1].present
    ensures IsActive(row) && 0 <= d <= MAX_DURATION_SECONDS ==>
              var t0, t := s[RunStart(s)].now / 1_000_000_000, s[|s| - 1].now;
              if t - t0 * SECOND >= d * SECOND then
                row.value.status == Firing && exists j: nat :: FiringBegins(d, s, j) && row.value.firingSince == Some(s[j].now / 1_000_000_000)
              else row.value.status == Pending && row.value.pendingSince == Some(t0)
  {
    hide Due, RunStart, InOrder;
    if s != [] && s[|s| - 1].present && 0 <= d <= MAX_DURATION_SECONDS {
      DueAtLast(d, s);
      if FirstDue(d, s, RunStart(s)).Some? {
        FirstDueBegins(d, s);
      }
    }
  }

  /** The stored status of an instance is a function of the results of its rule's queries since
      the last edit, for every duration (d may be negative or overflow; DurationNs says what the
      code compares with), whatever failed queries, acknowledgements and other events happened
      in between. For durations of 0 s up to the largest time.Duration this is: inactive iff
      absent from the latest successful query at T; otherwise, with t0 the first query of the
      unbroken presence, firing iff T - floor_sec(t0) >= d, and pending since floor_sec(t0)
      if not. */
  lemma StatusFollowsQueries(hash: string -> string, ws: seq<World>, es: seq<Event>, r: int, fp: string)
    requires IsRun(hash, ws, es) && Chronological(es)
    ensures var row, s := Get(ws[|es|].states, (r, fp)), Sightings(hash, es, r, fp);
            match Get(ws[|es|].rules, r)
            case None => row.None?
            case Some(rule) =>
              && HasPhase(row, ExpectedPhase(rule.duration, s))
              && (IsActive(row) <==> s != [] && s[|s| - 1].present)
              && (IsActive(row) && 0 <= rule.duration <= 9_223_372_036 ==>
                    var t0, t := s[RunStart(s)].now / 1_000_000_000, s[|s| - 1].now;
                    if t - t0 * 1_000_000_000 >= rule.duration * 1_000_000_000 then
                      row.value.status == Firing && exists j: nat :: FiringBegins(rule.duration, s, j) && row.value.firingSince == Some(s[j].now / 1_000_000_000)
                    else row.value.status == Pending && row.value.pendingSince == Some(t0))
  {
    hide Sightings, CellAt, RuleAt, ExpectedPhase, HasPhase, Next, InOrder;
    RunAdmissible(hash, ws, es);
    RunCell(hash, ws, es, r, fp);
    PhaseFollows(hash, es, r, fp);
    SightingsInOrder(hash, es, r, fp);
    if RuleAt(es, r).Some? {
      PhaseOfRow(Get(ws[|es|].states, (r, fp)), RuleAt(es, r).value.duration, Sightings(hash, es, r, fp));
    }
  }

  ghost predicate SimpleLawAt(d: int, s: seq<Sighting>)
    requires s != [] && s[|s| - 1].present
  {
    ExpectedPhase(d, s).FiringFrom? <==>
      s[|s| - 1].now - s[RunStart(s)].now / 1_000_000_000 * 1_000_000_000 >= d * 1_000_000_000
  }

  /** "Firing iff the presence has lasted d seconds", for every sequence of sightings. */
  ghost predicate SimpleLaw(d: int) {
    forall s: seq<Sighting> :: s != [] && s[|s| - 1].present && InOrder(s) && (forall x :: x in s ==> ClockOk(x.now)) ==> SimpleLawAt(d, s)
  }

  /** The simple reading of a rule's duration is right exactly for 0 s up to the largest
      time.Duration. A negative duration still waits for a second sighting; a larger one wraps
      around and fires early. */
  lemma SimpleLawIff(d: int)
    ensures SimpleLaw(d) <==> 0 <= d <= 9_223_372_036
  {
    if 0 <= d <= MAX_DURATION_SECONDS {
      forall s: seq<Sighting> | s != [] && s[|s| - 1].present && InOrder(s) ensures SimpleLawAt(d, s) {
        DueAtLast(d, s);
      }
    } else if d < 0 {
      var s := [Sighting(SECOND, true)];
      assert !Due(d, s, 0, 0);
      assert !SimpleLawAt(d, s);
    } else {
      var s := [Sighting(SECOND, true), Sighting(SECOND + MAX_INT64, true)];
      assert s[..1] == [s[0]];
      assert RunStart([s[0]]) == 0 && RunStart(s) == 0;
      assert DurationNs(d) <= MAX_INT64;
      assert Due(d, s, 0, 1);
      assert !SimpleLawAt(d, s);
    }
  }

  // ----- history -----

  /** (firing+ recovered)* firing*: every recovered entry directly follows a firing one. */
  ghost predicate Regular(h: seq<HistoryItem>) {
    forall i :: 0 <= i < |h| && h[i].state == Recovered ==> i > 0 && h[i - 1].state == Fired
  }

  ghost predicate EndsFired(h: seq<HistoryItem>) {
    h != [] && h[|h| - 1].state == Fired
  }

  ghost predicate IsFiring(row: Option<Row>) {
    row.Some? && row.value.status == Firing
  }

  lemma TickHistory(rule: AlertRule, current: map<string, Instance>, now: int, readings: string -> Readings, fp: string, c: Cell)
    requires Regular(c.history) && (IsFiring(c.row) ==> EndsFired(c.history))
    ensures var c' := TickCell(rule, current, now, readings, fp, c);
            && Regular(c'.history)
            && (IsFiring(c'.row) ==> EndsFired(c'.history))
            && ((EndsFired(c.history) ==> IsFiring(c.row)) ==> EndsFired(c'.history) ==> IsFiring(c'.row))
  {
    hide Encoded, DecodeLabels, Sub, DurationNs;
  }

  ghost predicate Edits(e: Event, r: int) {
    e.EditRule? && e.rule.id == r
  }

  lemma {:induction false} HistoryFollows(hash: string -> string, es: seq<Event>, r: int, fp: string)
    ensures var c := CellAt(hash, es, r, fp); Regular(c.history) && (IsFiring(c.row) ==> EndsFired(c.history))
    ensures (forall i :: 0 <= i < |es| ==> !Edits(es[i], r)) ==>
              (EndsFired(CellAt(hash, es, r, fp).history) ==> IsFiring(CellAt(hash, es, r, fp).row))
  {
    hide CurrentOf, TickCell, RuleAt;
    if es != [] {
      var front, e := es[..|es| - 1], es[|es| - 1];
      HistoryFollows(hash, front, r, fp);
      var c := CellAt(hash, front, r, fp);
      var rule := RuleAt(front, r);
      if e.Tick? && e.ruleId == r && rule.Some? && e.answer.Some? {
        TickHistory(rule.value, CurrentOf(hash, e.answer.value), e.now, e.readings, fp, c);
      }
    }
  }

  /** The entries of one instance in alert_history always read (firing+ recovered)* firing*; a
      firing row's last entry is firing, and if the rule was never edited the converse holds. */
  lemma HistoryIsRegular(hash: string -> string, ws: seq<World>, es: seq<Event>, r: int, fp: string)
    requires IsRun(hash, ws, es)
    ensures var w := ws[|es|]; var h := HistoryOf(w.history, r, fp);
            && Regular(h)
            && (IsFiring(Get(w.states, (r, fp))) ==> EndsFired(h))
            && ((forall i :: 0 <= i < |es| ==> !Edits(es[i], r)) ==> EndsFired(h) ==> IsFiring(Get(w.states, (r, fp))))
  {
    hide CellAt, Next, Regular, HistoryOf, MailsOf;
    RunCell(hash, ws, es, r, fp);
    HistoryFollows(hash, es, r, fp);
  }

  // ----- what rows and entries say -----

  /** Series k of the result has these labels and this fingerprint, and no later one has it. */
  ghost predicate IsSeries(hash: string -> string, results: seq<Vector>, fp: string, k: nat, labels: LabelSet) {
    && k < |results| && labels == (if results[k].metric.Some? then results[k].metric.value else map[])
    && hash(Canonical(labels)) == fp
    && forall i :: k < i < |results| ==> hash(Canonical(LabelsOf(results[i]))) != fp
  }

  /** The instance as the latest successful query of rule r that contained it reported it, since
      the rule was last edited. */
  ghost function LastSeen(hash: string -> string, es: seq<Event>, r: int, fp: string): Option<Instance> {
    if es == [] then None
    else
      var front := es[..|es| - 1];
      match es[|es| - 1]
      case Tick(id, answer, _, _, _) =>
        if id == r && RuleAt(front, r).Some? && answer.Some? && fp in CurrentOf(hash, answer.value)
        then Some(CurrentOf(hash, answer.value)[fp]) else LastSeen(hash, front, r, fp)
      case EditRule(rule) => if rule.id == r then None else LastSeen(hash, front, r, fp)
      case DeleteRule(id) => if id == r then None else LastSeen(hash, front, r, fp)
      case _ => LastSeen(hash, front, r, fp)
  }

  /** The row carries the instance's labels and value. */
  ghost predicate Shows(row: Option<Row>, seen: Option<Instance>) {
    row.Some? ==> seen.Some? && row.value.labelsJson == Encoded(seen.value.labels) && row.value.lastValue == seen.value.value
  }

  lemma PresentShows(rule: AlertRule, fp: string, inst: Instance, now: int, r: Readings, row: Option<Row>)
    ensures Shows(Some(PresentDelta(rule, fp, inst, now, r, row).row), Some(inst))
  {
  }

  lemma AbsentShows(rule: AlertRule, fp: string, r: Readings, row: Row, seen: Option<Instance>)
    requires Shows(Some(row), seen)
    ensures Shows(Some(AbsentDelta(rule, fp, r, row).row), seen)
  {
    hide Encoded, DecodeLabels;
    LabelsRoundTrip(seen.value.labels);
  }

  lemma {:induction false} RowsShowLastSeen(hash: string -> string, es: seq<Event>, r: int, fp: string)
    requires Admissible(es)
    ensures Shows(CellAt(hash, es, r, fp).row, LastSeen(hash, es, r, fp))
  {
    hide CurrentOf, PresentDelta, AbsentDelta, Encoded, RuleAt;
    if es != [] {
      var front, e := es[..|es| - 1], es[|es| - 1];
      RowsShowLastSeen(hash, front, r, fp);
      var c, rule := CellAt(hash, front, r, fp), RuleAt(front, r);
      if e.Tick? && e.ruleId == r && rule.Some? && e.answer.Some? {
        var current := CurrentOf(hash, e.answer.value);
        if fp in current {
          PresentShows(rule.value, fp, current[fp], e.now, e.readings(fp), c.row);
        } else if IsActive(c.row) {
          AbsentShows(rule.value, fp, e.readings(fp), c.row.value, LastSeen(hash, front, r, fp));
        }
      }
    }
  }

  lemma {:induction false} LastSeenKeyed(hash: string -> string, es: seq<Event>, r: int, fp: string)
    ensures LastSeen(hash, es, r, fp).Some? ==> hash(Canonical(LastSeen(hash, es, r, fp).value.labels)) == fp
  {
    hide CurrentOf, Canonical, RuleAt;
    if es != [] {
      LastSeenKeyed(hash, es[..|es| - 1], r, fp);
      var e := es[|es| - 1];
      if e.Tick? && e.answer.Some? && fp in CurrentOf(hash, e.answer.value) {
        CurrentKeyed(hash, e.answer.value, fp);
      }
    }
  }

  /** The event shows the instance, or takes its row away. */
  ghost predicate ShowsOrDrops(hash: string -> string, e: Event, r: int, fp: string) {
    match e
    case Tick(id, answer, _, _, _) =>
      id == r && answer.Some? && exists k :: 0 <= k < |answer.value| && hash(Canonical(LabelsOf(answer.value[k]))) == fp
    case EditRule(rule) => rule.id == r
    case DeleteRule(id) => id == r
    case _ => false
  }

  /** What was last seen is the last series with the fingerprint, in the answer of the latest query
      that had one. */
  lemma {:induction false} LastSeenIs(hash: string -> string, es: seq<Event>, r: int, fp: string, n: nat, k: nat, labels: LabelSet)
    requires n < |es| && es[n].Tick? && es[n].ruleId == r && RuleAt(es[..n], r).Some? && es[n].answer.Some?
    requires IsSeries(hash, es[n].answer.value, fp, k, labels)
    requires forall j :: n < j < |es| ==> !ShowsOrDrops(hash, es[j], r, fp)
    ensures LastSeen(hash, es, r, fp) == Some(Instance(labels, es[n].answer.value[k].value))
  {
    hide Canonical, RuleAt;
    var front, e := es[..|es| - 1], es[|es| - 1];
    if n == |es| - 1 {
      CurrentIsLast(hash, e.answer.value, fp, k, labels);
    } else {
      assert front[..n] == es[..n];
      LastSeenIs(hash, front, r, fp, n, k, labels);
      assert !ShowsOrDrops(hash, e, r, fp);
      if e.Tick? && e.answer.Some? {
        CurrentMeansSeries(hash, e.answer.value, fp);
      }
    }
  }

  /** Every stored row, whatever its status, holds the labels and the value of the latest
      successful query that contained the instance; so its labels hash to the fingerprint it is
      stored under. */
  lemma StoredRowsShowLastSeen(hash: string -> string, ws: seq<World>, es: seq<Event>, k: (int, string))
    requires IsRun(hash, ws, es) && Chronological(es) && k in ws[|es|].states
    ensures var row, seen := ws[|es|].states[k], LastSeen(hash, es, k.0, k.1);
            && seen.Some? && row.lastValue == seen.value.value && DecodeLabels(row.labelsJson) == seen.value.labels
            && row.labelsJson == Encoded(seen.value.labels)
            && hash(Canonical(DecodeLabels(row.labelsJson))) == k.1
  {
    hide CellAt, LastSeen, Encoded, DecodeLabels, Canonical, Next;
    RunAdmissible(hash, ws, es);
    RunCell(hash, ws, es, k.0, k.1);
    RowsShowLastSeen(hash, es, k.0, k.1);
    LastSeenKeyed(hash, es, k.0, k.1);
    LabelsRoundTrip(LastSeen(hash, es, k.0, k.1).value.labels);
  }

  /** The entry tells the rule, the instance with these labels and this value, and the second. */
  ghost predicate Tells(h: HistoryItem, rule: AlertRule, fp: string, labels: LabelSet, value: real, state: HistoryState, at: int) {
    && h.ruleId == rule.id && h.ruleName == rule.name && h.expr == rule.expr && h.fingerprint == fp
    && DecodeLabels(h.labelsJson) == labels && h.value == value && h.state == state && h.triggeredAt == at / 1_000_000_000
  }

  /** A recovery is announced exactly when a firing instance is missing from a successful query;
      its history entry and mail carry the labels and value last seen, and the entry is filed
      under the same fingerprint as the firing ones. */
  lemma RecoveryReportsLastSeen(hash: string -> string, ws: seq<World>, es: seq<Event>, n: nat, fp: string)
    requires IsRun(hash, ws, es) && Chronological(es) && n < |es|
    requires es[n].Tick? && es[n].answer.Some? && fp !in CurrentOf(hash, es[n].answer.value)
    ensures var r := es[n].ruleId;
            var before, after := CellOf(hash, ws[n], r, fp), CellOf(hash, ws[n + 1], r, fp);
            if IsFiring(before.row) then
              var seen := LastSeen(hash, es[..n], r, fp);
              && seen.Some? && !IsActive(after.row)
              && |after.history| == |before.history| + 1 && after.history[..|before.history|] == before.history
              && r in ws[n].rules && ws[n].rules[r].id == r
              && Tells(after.history[|before.history|], ws[n].rules[r], fp, seen.value.labels, seen.value.value, Recovered, es[n].readings(fp).recordedAt)
              && after.mails == before.mails + [Mail(r, seen.value.labels, seen.value.value, Recovered, es[n].readings(fp).recordedAt)]
            else after.history == before.history && after.mails == before.mails
  {
    hide CurrentOf, HistoryOf, MailsOf, Encoded, DecodeLabels, LastSeen, Canonical;
    var r := es[n].ruleId;
    RunPrefix(hash, ws, es, n);
    assert Next(hash, ws[n], es[n], ws[n + 1]);
    var before := CellOf(hash, ws[n], r, fp);
    assert CellOf(hash, ws[n + 1], r, fp) == StepCell(hash, es[n], Get(ws[n].rules, r), r, fp, before);
    if IsFiring(before.row) {
      StoredRowsShowLastSeen(hash, ws[..n + 1], es[..n], (r, fp));
      LabelsRoundTrip(LastSeen(hash, es[..n], r, fp).value.labels);
    }
  }

  // ----- which acknowledgement is in force -----

  /** The instance has a row: a successful query contained it since the rule was last edited. */
  ghost predicate Known(hash: string -> string, es: seq<Event>, r: int, fp: string) {
    exists i :: 0 <= i < |Sightings(hash, es, r, fp)| && Sightings(hash, es, r, fp)[i].present
  }

  /** By the query history, the instance is firing. */
  ghost predicate FiresAt(hash: string -> string, es: seq<Event>, r: int, fp: string) {
    RuleAt(es, r).Some? && ExpectedPhase(RuleAt(es, r).value.duration, Sightings(hash, es, r, fp)).FiringFrom?
  }

  /** Event k takes an acknowledgement back: the rule is edited or deleted, or the instance is
      missing from a successful query while it is firing. */
  ghost predicate Revokes(hash: string -> string, es: seq<Event>, r: int, fp: string, k: nat)
    requires k < |es|
  {
    match es[k]
    case Tick(id, answer, _, _, _) =>
      id == r && answer.Some? && fp !in CurrentOf(hash, answer.value) && FiresAt(hash, es[..k], r, fp)
    case EditRule(rule) => rule.id == r
    case DeleteRule(id) => id == r
    case _ => false
  }

  /** Event k acknowledges the instance, which has a row by then, and nothing has taken it back. */
  ghost predicate InForce(hash: string -> string, es: seq<Event>, r: int, fp: string, k: nat) {
    && k < |es| && es[k].Acknowledge? && es[k].ruleId == r && es[k].fp == fp
    && Known(hash, es[..k], r, fp)
    && forall j :: k < j < |es| ==> !Revokes(hash, es, r, fp, j)
  }

  ghost predicate HasAck(row: Option<Row>) {
    row.Some? && row.value.acknowledgedAt.Some?
  }

  /** One tick: the acknowledgement goes only when a firing instance is missing. */
  lemma TickKeepsAck(rule: AlertRule, current: map<string, Instance>, now: int, readings: string -> Readings, fp: string, c: Cell)
    requires c.row.Some? ==> RowOk(c.row.value)
    ensures var c' := TickCell(rule, current, now, readings, fp, c);
            && (c'.row.Some? <==> c.row.Some? || fp in current)
            && (HasAck(c'.row) <==> HasAck(c.row) && (fp in current || !IsFiring(c.row)))
            && (HasAck(c'.row) ==> c'.row.value.acknowledgedAt == c.row.value.acknowledgedAt && c'.row.value.silenceUntil == c.row.value.silenceUntil)
  {
    hide Encoded, DecodeLabels, Sub, DurationNs, FormatTime, ColumnOk;
    if c.row.Some? {
      ColumnReads(c.row.value.acknowledgedAt);
      NoPhantomSilence(c.row.value);
    }
  }

  lemma {:induction false} RowIffKnown(hash: string -> string, es: seq<Event>, r: int, fp: string)
    requires Admissible(es)
    ensures CellAt(hash, es, r, fp).row.Some? <==> Known(hash, es, r, fp)
  {
    hide CurrentOf, TickCell, AckRow;
    if es != [] {
      var front, e := es[..|es| - 1], es[|es| - 1];
      var c, s, s' := CellAt(hash, front, r, fp), Sightings(hash, front, r, fp), Sightings(hash, es, r, fp);
      RowIffKnown(hash, front, r, fp);
      PhaseFollows(hash, front, r, fp);
      RowsKeepShape(hash, front, r, fp);
      if e.Tick? && e.ruleId == r && RuleAt(front, r).Some? && e.answer.Some? {
        var current := CurrentOf(hash, e.answer.value);
        TickKeepsAck(RuleAt(front, r).value, current, e.now, e.readings, fp, c);
        assert s' == s + [Sighting(e.now, fp in current)];
        assert forall i :: 0 <= i < |s| ==> s'[i] == s[i];
        assert s'[|s|].present <==> fp in current;
      }
    }
  }

  lemma FiresIff(hash: string -> string, es: seq<Event>, r: int, fp: string)
    requires Admissible(es)
    ensures FiresAt(hash, es, r, fp) <==> IsFiring(CellAt(hash, es, r, fp).row)
  {
    hide CellAt, Sightings, RuleAt, ExpectedPhase;
    PhaseFollows(hash, es, r, fp);
  }

  /** The row is acknowledged, as the events tell it one by one. */
  ghost predicate Acked(hash: string -> string, es: seq<Event>, r: int, fp: string) {
    es != [] &&
    (var front, e := es[..|es| - 1], es[|es| - 1];
     if e.Acknowledge? && e.ruleId == r && e.fp == fp && Known(hash, front, r, fp) then true
     else Acked(hash, front, r, fp) && !Revokes(hash, es, r, fp, |es| - 1))
  }

  lemma {:induction false} RowIsAcked(hash: string -> string, es: seq<Event>, r: int, fp: string)
    requires Admissible(es)
    ensures HasAck(CellAt(hash, es, r, fp).row) <==> Acked(hash, es, r, fp)
  {
    hide CurrentOf, TickCell, FiresAt, Known, RowOk;
    if es != [] {
      var front, e := es[..|es| - 1], es[|es| - 1];
      var c := CellAt(hash, front, r, fp);
      RowIsAcked(hash, front, r, fp);
      RowIffKnown(hash, front, r, fp);
      FiresIff(hash, front, r, fp);
      RowsKeepShape(hash, front, r, fp);
      NoRuleNoRow(hash, front, r, fp);
      if e.Tick? && e.ruleId == r && RuleAt(front, r).Some? && e.answer.Some? {
        TickKeepsAck(RuleAt(front, r).value, CurrentOf(hash, e.answer.value), e.now, e.readings, fp, c);
      }
    }
  }

  lemma NoRuleNoRow(hash: string -> string, es: seq<Event>, r: int, fp: string)
    requires Admissible(es)
    ensures RuleAt(es, r).None? ==> CellAt(hash, es, r, fp).row.None?
  {
    PhaseFollows(hash, es, r, fp);
  }

  lemma SameBefore(hash: string -> string, es: seq<Event>, r: int, fp: string, k: nat)
    requires es != [] && k < |es| - 1
    ensures es[..|es| - 1][..k] == es[..k]
    ensures Revokes(hash, es[..|es| - 1], r, fp, k) <==> Revokes(hash, es, r, fp, k)
  {
    assert es[..|es| - 1][..k] == es[..k];
  }

  lemma InForceBefore(hash: string -> string, es: seq<Event>, r: int, fp: string, k: nat)
    requires es != [] && k < |es| - 1
    ensures InForce(hash, es, r, fp, k) <==> InForce(hash, es[..|es| - 1], r, fp, k) && !Revokes(hash, es, r, fp, |es| - 1)
  {
    hide Revokes, Known;
    var front, n := es[..|es| - 1], |es| - 1;
    forall j: nat | j < n ensures Revokes(hash, front, r, fp, j) <==> Revokes(hash, es, r, fp, j) {
      SameBefore(hash, es, r, fp, j);
    }
    SameBefore(hash, es, r, fp, k);
    assert front[k] == es[k];
    if InForce(hash, front, r, fp, k) && !Revokes(hash, es, r, fp, n) {
      forall j: nat | k < j < |es| ensures !Revokes(hash, es, r, fp, j) {
        assert j < n ==> !Revokes(hash, front, r, fp, j);
      }
    }
  }

  lemma {:induction false} AckedIffInForce(hash: string -> string, es: seq<Event>, r: int, fp: string)
    ensures Acked(hash, es, r, fp) <==> exists k :: InForce(hash, es, r, fp, k)
  {
    hide Revokes, Known;
    if es != [] {
      var front, n := es[..|es| - 1], |es| - 1;
      AckedIffInForce(hash, front, r, fp);
      forall k: nat | k < n
        ensures InForce(hash, es, r, fp, k) <==> InForce(hash, front, r, fp, k) && !Revokes(hash, es, r, fp, n)
      {
        InForceBefore(hash, es, r, fp, k);
      }
      assert InForce(hash, es, r, fp, n) <==> es[n].Acknowledge? && es[n].ruleId == r && es[n].fp == fp && Known(hash, front, r, fp);
      if es[n].Acknowledge? {
        AcksRevokeNothing(hash, es, r, fp, n);
      }
      if Acked(hash, front, r, fp) && !Revokes(hash, es, r, fp, n) {
        var k: nat :| InForce(hash, front, r, fp, k);
        assert InForce(hash, es, r, fp, k);
      }
    }
  }

  lemma AcksRevokeNothing(hash: string -> string, es: seq<Event>, r: int, fp: string, k: nat)
    requires k < |es| && es[k].Acknowledge?
    ensures !Revokes(hash, es, r, fp, k)
  {
  }

  /** acknowledged_at is set exactly when some acknowledgement is in force: it came when the
      instance already had a row, whatever its status, and since then the rule was not edited or
      deleted and no recovery from firing happened. Going from pending to ok takes nothing back,
      so an acknowledgement given before an episode silences it too. */
  lemma AcknowledgedIff(hash: string -> string, ws: seq<World>, es: seq<Event>, r: int, fp: string)
    requires IsRun(hash, ws, es) && Chronological(es)
    ensures HasAck(Get(ws[|es|].states, (r, fp))) <==> exists k :: InForce(hash, es, r, fp, k)
  {
    hide CellAt, Next, Acked, InForce;
    RunAdmissible(hash, ws, es);
    RunCell(hash, ws, es, r, fp);
    RowIsAcked(hash, es, r, fp);
    AckedIffInForce(hash, es, r, fp);
  }

  /** The row carries the second of the acknowledgement and the second its silence was to end. */
  ghost predicate AckedBy(row: Option<Row>, e: Event) {
    && e.Acknowledge? && row.Some?
    && row.value.acknowledgedAt == Some(e.now / 1_000_000_000)
    && row.value.silenceUntil == if e.silenceUntil.Some? then Some(e.silenceUntil.value / 1_000_000_000) else None
  }

  /** One event after which acknowledgement k is still the latest one in force. */
  lemma AckStays(hash: string -> string, es: seq<Event>, r: int, fp: string, k: nat)
    requires Admissible(es) && k < |es| - 1 && InForce(hash, es, r, fp, k) && !InForce(hash, es, r, fp, |es| - 1)
    requires AckedBy(CellAt(hash, es[..|es| - 1], r, fp).row, es[k])
    ensures AckedBy(CellAt(hash, es, r, fp).row, es[k])
  {
    hide CurrentOf, TickCell, FiresAt, Known, RowOk;
    var front, e := es[..|es| - 1], es[|es| - 1];
    var c := CellAt(hash, front, r, fp);
    RowIffKnown(hash, front, r, fp);
    FiresIff(hash, front, r, fp);
    RowsKeepShape(hash, front, r, fp);
    assert !Revokes(hash, es, r, fp, |es| - 1);
    if e.Tick? && e.ruleId == r && RuleAt(front, r).Some? && e.answer.Some? {
      TickKeepsAck(RuleAt(front, r).value, CurrentOf(hash, e.answer.value), e.now, e.readings, fp, c);
    }
  }

  lemma {:induction false} LatestAckShows(hash: string -> string, es: seq<Event>, r: int, fp: string, k: nat)
    requires Admissible(es) && InForce(hash, es, r, fp, k) && forall j: nat :: j > k ==> !InForce(hash, es, r, fp, j)
    ensures AckedBy(CellAt(hash, es, r, fp).row, es[k])
  {
    hide CurrentOf, Known, Revokes, TickCell, InForce;
    InForceMeans(hash, es, r, fp, k);
    var front := es[..|es| - 1];
    if k == |es| - 1 {
      RowIffKnown(hash, front, r, fp);
    } else {
      InForceBefore(hash, es, r, fp, k);
      forall j: nat | j > k ensures !InForce(hash, front, r, fp, j) {
        if j < |es| - 1 {
          InForceBefore(hash, es, r, fp, j);
        } else if InForce(hash, front, r, fp, j) {
          InForceMeans(hash, front, r, fp, j);
        }
      }
      LatestAckShows(hash, front, r, fp, k);
      AckStays(hash, es, r, fp, k);
    }
  }

  lemma InForceMeans(hash: string -> string, es: seq<Event>, r: int, fp: string, k: nat)
    requires InForce(hash, es, r, fp, k)
    ensures k < |es| && es[k].Acknowledge? && es[k].ruleId == r && es[k].fp == fp && Known(hash, es[..k], r, fp)
  {
  }

  /** The two columns are those of the latest acknowledgement in force: its second, and the second
      its silence was to end, if it asked for one. */
  lemma LatestAckStored(hash: string -> string, ws: seq<World>, es: seq<Event>, r: int, fp: string, k: nat)
    requires IsRun(hash, ws, es) && Chronological(es)
    requires InForce(hash, es, r, fp, k) && forall j: nat :: j > k ==> !InForce(hash, es, r, fp, j)
    ensures k < |es| && AckedBy(Get(ws[|es|].states, (r, fp)), es[k])
  {
    InForceMeans(hash, es, r, fp, k);
    hide CellAt, Next, InForce, AckedBy;
    RunAdmissible(hash, ws, es);
    RunCell(hash, ws, es, r, fp);
    LatestAckShows(hash, es, r, fp, k);
  }

  lemma FiringStays(hash: string -> string, es: seq<Event>, r: int, fp: string)
    requires Admissible(es) && es != [] && !Revokes(hash, es, r, fp, |es| - 1)
    requires FiresAt(hash, es[..|es| - 1], r, fp)
    ensures FiresAt(hash, es, r, fp)
  {
    hide CurrentOf, FiresAt, Encoded, DecodeLabels;
    FiresIff(hash, es[..|es| - 1], r, fp);
    FiresIff(hash, es, r, fp);
  }

  /** An acknowledgement of a firing instance is in force within that episode only: those that
      silence a later episode were given while the instance was pending or ok. */
  lemma {:induction false} InForceWithinEpisode(hash: string -> string, es: seq<Event>, r: int, fp: string, k: nat, n: nat)
    requires k < n <= |es| && Admissible(es[..n])
    requires InForce(hash, es[..n], r, fp, k) && FiresAt(hash, es[..k], r, fp)
    ensures FiresAt(hash, es[..n], r, fp)
  {
    hide FiresAt, Known, Revokes;
    var now, before := es[..n], es[..n - 1];
    assert now[..n - 1] == before && Admissible(before);
    if k < n - 1 {
      forall j: nat | k < j < n - 1 ensures !Revokes(hash, before, r, fp, j) {
        SameBefore(hash, now, r, fp, j);
      }
      assert now[..k] == before[..k];
      InForceWithinEpisode(hash, es, r, fp, k, n - 1);
    } else {
      AcksRevokeNothing(hash, now, r, fp, k);
    }
    FiringStays(hash, now, r, fp);
  }

  lemma OneSeries(hash: string -> string, labels: LabelSet)
    ensures CurrentOf(hash, [Vector(Some(labels), 0.0)]) == map[hash(Canonical(labels)) := Instance(labels, 0.0)]
  {
    hide Canonical;
    assert [Vector(Some(labels), 0.0)][..0] == [];
  }

  lemma AfterTick(hash: string -> string, es: seq<Event>, e: Event, r: int, fp: string)
    requires e.Tick? && e.ruleId == r && e.answer.Some? && RuleAt(es, r).Some?
    ensures RuleAt(es + [e], r) == RuleAt(es, r)
    ensures Sightings(hash, es + [e], r, fp) == Sightings(hash, es, r, fp) + [Sighting(e.now, fp in CurrentOf(hash, e.answer.value))]
  {
    hide CurrentOf;
    assert (es + [e])[..|es|] == es;
  }

  lemma AfterAck(hash: string -> string, es: seq<Event>, e: Event, r: int, fp: string)
    requires e.Acknowledge?
    ensures RuleAt(es + [e], r) == RuleAt(es, r) && Sightings(hash, es + [e], r, fp) == Sightings(hash, es, r, fp)
  {
    assert (es + [e])[..|es|] == es;
  }

  lemma AfterCreation(hash: string -> string, rule: AlertRule, fp: string)
    ensures RuleAt([CreateRule(rule)], rule.id) == Some(rule) && Sightings(hash, [CreateRule(rule)], rule.id, fp) == []
  {
    assert [CreateRule(rule)][..0] == [];
  }

  /** Seen at 1 s and at 3 s under a duration of 1 s: pending first, then firing. */
  lemma PendingThenFiring()
    ensures ExpectedPhase(1, [Sighting(SECOND, true)]) == PendingFrom(1)
    ensures ExpectedPhase(1, [Sighting(SECOND, true), Sighting(3 * SECOND, true)]) == FiringFrom(3)
  {
    var x, y := Sighting(SECOND, true), Sighting(3 * SECOND, true);
    NoSightings();
    OrdinaryDuration(1);
    ExpectedPhaseStep(1, [], x);
    ExpectedPhaseStep(1, [x], y);
    assert [] + [x] == [x] && [x] + [y] == [x, y];
    hide ExpectedPhase, DurationNs;
  }

  /** Such a run for any labels: acknowledged while pending, firing afterwards, and still
      acknowledged. */
  lemma EarlyAckSilences(hash: string -> string, labels: LabelSet) returns (es: seq<Event>, r: int, fp: string)
    ensures Chronological(es) && InForce(hash, es, r, fp, 2)
    ensures FiresAt(hash, es, r, fp) && !FiresAt(hash, es[..2], r, fp)
  {
    hide Canonical, CurrentOf, Sightings, RuleAt, ExpectedPhase;
    OneSeries(hash, labels);
    r, fp := 1, hash(Canonical(labels));
    var rule := AlertRule(r, "", true, "", 1, "");
    var answer := Some([Vector(Some(labels), 0.0)]);
    var e0, e1 := CreateRule(rule), Tick(r, answer, SECOND, SECOND, _ => Readings(SECOND, SECOND));
    var e2, e3 := Acknowledge(r, fp, SECOND, None), Tick(r, answer, 3 * SECOND, 3 * SECOND, _ => Readings(3 * SECOND, 3 * SECOND));
    AfterCreation(hash, rule, fp);
    AfterTick(hash, [e0], e1, r, fp);
    AfterAck(hash, [e0] + [e1], e2, r, fp);
    AfterTick(hash, [e0] + [e1] + [e2], e3, r, fp);
    es := [e0] + [e1] + [e2] + [e3];
    assert es[..2] == [e0] + [e1] && [] + [Sighting(SECOND, true)] == [Sighting(SECOND, true)];
    PendingThenFiring();
    assert Sightings(hash, es[..2], r, fp)[0].present;
    assert [Sighting(SECOND, true)] + [Sighting(3 * SECOND, true)] == [Sighting(SECOND, true), Sighting(3 * SECOND, true)];
  }

  // ----- notifications -----

  /** The clock readings of the firing mails in a list. */
  function FiredTimes(ms: seq<Mail>): seq<int> {
    if ms == [] then []
    else FiredTimes(ms[..|ms| - 1]) + (if ms[|ms| - 1].state == Fired then [ms[|ms| - 1].at] else [])
  }

  lemma MailsGrow(hash: string -> string, e: Event, rule: Option<AlertRule>, r: int, fp: string, c: Cell)
    ensures c.mails <= StepCell(hash, e, rule, r, fp, c).mails
  {
  }

  /** The mails one event adds for the instance. */
  ghost function NewMails(hash: string -> string, es: seq<Event>, r: int, fp: string): seq<Mail>
    requires es != []
  {
    var front := es[..|es| - 1];
    var c := CellAt(hash, front, r, fp);
    MailsGrow(hash, es[|es| - 1], RuleAt(front, r), r, fp, c);
    CellAt(hash, es, r, fp).mails[|c.mails|..]
  }

  /** When the instance was notified as firing during its current firing episode: the readings
      stored by SetLastNotified, oldest first; empty when it is not firing. */
  ghost function Episode(hash: string -> string, es: seq<Event>, r: int, fp: string): seq<int> {
    if es == [] || !IsFiring(CellAt(hash, es, r, fp).row) then []
    else Episode(hash, es[..|es| - 1], r, fp) + FiredTimes(NewMails(hash, es, r, fp))
  }

  /** Stored times advance by 300 s or more from each notification to the next. */
  ghost predicate Spaced(ts: seq<int>) {
    forall j, k :: 0 <= j <= k < |ts| ==> FloorSec(ts[k]) - FloorSec(ts[j]) >= 300 * (k - j)
  }

  ghost predicate EpisodeOk(row: Option<Row>, ts: seq<int>) {
    && Spaced(ts)
    && (IsFiring(row) ==> ts != [] && row.value.lastNotifiedAt == Some(FloorSec(ts[|ts| - 1])))
    && (!IsFiring(row) ==> ts == [])
  }

  lemma SpacedNothing()
    ensures Spaced([])
  {
  }

  lemma SpacedAppend(ts: seq<int>, t: int)
    requires Spaced(ts)
    requires ts != [] ==> FloorSec(t) - FloorSec(ts[|ts| - 1]) >= 300
    ensures Spaced(ts + [t])
  {
  }

  /** What a present tick notifies: the row's stored time moves to the reading of the mail, and
      while firing that reading is 300 s or more after the stored one. */
  lemma PresentNotifies(rule: AlertRule, fp: string, inst: Instance, now: int, r: Readings, row: Option<Row>)
    requires row.Some? ==> RowOk(row.value)
    requires ClockOk(now) && now <= r.notifiedAt && ClockOk(r.notifiedAt)
    ensures var d := PresentDelta(rule, fp, inst, now, r, row);
            if d.mails == [] then
              (IsFiring(Some(d.row)) <==> IsFiring(row)) && (row.Some? ==> d.row.lastNotifiedAt == row.value.lastNotifiedAt)
            else
              && FiredTimes(d.mails) == [r.notifiedAt] && IsFiring(Some(d.row))
              && d.row.lastNotifiedAt == Some(FloorSec(r.notifiedAt))
              && (IsFiring(row) ==> FloorSec(r.notifiedAt) - row.value.lastNotifiedAt.value >= 300)
  {
  }

  lemma AbsentNotifies(rule: AlertRule, fp: string, r: Readings, row: Row)
    ensures !IsFiring(Some(AbsentDelta(rule, fp, r, row).row))
  {
  }

  /** The instance's notifications once its mails have grown to those of c'. */
  ghost function EpisodeAfter(c: Cell, c': Cell, ts: seq<int>): seq<int>
    requires c.mails <= c'.mails
  {
    if IsFiring(c'.row) then ts + FiredTimes(c'.mails[|c.mails|..]) else []
  }

  lemma PresentKeepsEpisode(rule: AlertRule, fp: string, inst: Instance, now: int, r: Readings, c: Cell, ts: seq<int>)
    requires c.row.Some? ==> RowOk(c.row.value)
    requires ClockOk(now) && now <= r.notifiedAt && ClockOk(r.notifiedAt) && EpisodeOk(c.row, ts)
    ensures var c' := PresentCell(rule, fp, inst, now, r, c);
            c.mails <= c'.mails && EpisodeOk(c'.row, EpisodeAfter(c, c', ts))
  {
    hide PresentDelta, RowOk, Spaced, FloorSec;
    var d, c' := PresentDelta(rule, fp, inst, now, r, c.row), PresentCell(rule, fp, inst, now, r, c);
    PresentNotifies(rule, fp, inst, now, r, c.row);
    SpacedNothing();
    assert c'.mails[|c.mails|..] == d.mails;
    if d.mails != [] {
      SpacedAppend(ts, r.notifiedAt);
    } else {
      assert FiredTimes([]) == [] && ts + [] == ts;
    }
  }

  lemma AbsentKeepsEpisode(rule: AlertRule, fp: string, r: Readings, c: Cell, ts: seq<int>)
    requires EpisodeOk(c.row, ts)
    ensures var c' := AbsentCell(rule, fp, r, c);
            c.mails <= c'.mails && EpisodeOk(c'.row, EpisodeAfter(c, c', ts))
  {
    hide AbsentDelta, Spaced, FloorSec;
    SpacedNothing();
    if IsActive(c.row) {
      AbsentNotifies(rule, fp, r, c.row.value);
    }
  }

  lemma SameMailsKeepEpisode(c: Cell, c': Cell, ts: seq<int>)
    requires EpisodeOk(c.row, ts) && c'.mails == c.mails
    requires IsFiring(c'.row) ==> IsFiring(c.row) && c'.row.value.lastNotifiedAt == c.row.value.lastNotifiedAt
    ensures EpisodeOk(c'.row, EpisodeAfter(c, c', ts))
  {
    hide Spaced;
    SpacedNothing();
    assert c'.mails[|c.mails|..] == [] && FiredTimes([]) == [] && ts + [] == ts;
  }

  /** One event moves an episode from one legal state to the next. */
  lemma EventKeepsEpisode(hash: string -> string, e: Event, rule: Option<AlertRule>, r: int, fp: string, c: Cell, ts: seq<int>)
    requires EventOk(e) && (c.row.Some? ==> RowOk(c.row.value)) && EpisodeOk(c.row, ts)
    ensures var c' := StepCell(hash, e, rule, r, fp, c);
            c.mails <= c'.mails && EpisodeOk(c'.row, EpisodeAfter(c, c', ts))
  {
    hide CurrentOf, PresentCell, AbsentCell, EpisodeOk, EpisodeAfter, RowOk;
    var c' := StepCell(hash, e, rule, r, fp, c);
    if e.Tick? && e.ruleId == r && rule.Some? && e.answer.Some? {
      var current := CurrentOf(hash, e.answer.value);
      if fp in current {
        PresentKeepsEpisode(rule.value, fp, current[fp], e.now, e.readings(fp), c, ts);
      } else {
        AbsentKeepsEpisode(rule.value, fp, e.readings(fp), c, ts);
      }
    } else {
      SameMailsKeepEpisode(c, c', ts);
    }
  }

  lemma {:induction false} EpisodesStaySpaced(hash: string -> string, es: seq<Event>, r: int, fp: string)
    requires Admissible(es)
    ensures EpisodeOk(CellAt(hash, es, r, fp).row, Episode(hash, es, r, fp))
  {
    hide StepCell, RowOk, FiredTimes, Spaced;
    if es == [] {
      SpacedNothing();
    } else {
      var front, e := es[..|es| - 1], es[|es| - 1];
      EpisodesStaySpaced(hash, front, r, fp);
      RowsKeepShape(hash, front, r, fp);
      EventKeepsEpisode(hash, e, RuleAt(front, r), r, fp, CellAt(hash, front, r, fp), Episode(hash, front, r, fp));
    }
  }

  /** Within one firing episode the k-th notification after the first comes more than
      300 k - 1 seconds after it: the truncation of last_notified_at never accumulates. The
      stored time is that of the latest notification, so a firing instance always has one. */
  lemma NotificationsSpaced(hash: string -> string, ws: seq<World>, es: seq<Event>, r: int, fp: string)
    requires IsRun(hash, ws, es) && Chronological(es)
    ensures var ts, row := Episode(hash, es, r, fp), Get(ws[|es|].states, (r, fp));
            && (forall j, k :: 0 <= j < k < |ts| ==> ts[k] - ts[j] > 300 * (k - j) * 1_000_000_000 - 1_000_000_000)
            && (IsFiring(row) <==> ts != [])
            && (IsFiring(row) ==> row.value.lastNotifiedAt == Some(ts[|ts| - 1] / 1_000_000_000))
  {
    hide CellAt, Episode, Next;
    RunAdmissible(hash, ws, es);
    RunCell(hash, ws, es, r, fp);
    EpisodesStaySpaced(hash, es, r, fp);
    var ts := Episode(hash, es, r, fp);
    forall j, k | 0 <= j < k < |ts| ensures ts[k] - ts[j] > 300 * (k - j) * SECOND - SECOND {
      var a, b := FloorSec(ts[j]), FloorSec(ts[k]);
      assert b - a >= 300 * (k - j);
      assert ts[j] < (a + 1) * SECOND && b * SECOND <= ts[k];
      assert (b - a) * SECOND >= 300 * (k - j) * SECOND;
    }
  }

  ghost predicate Sights(hash: string -> string, e: Event, r: int, fp: string) {
    e.Tick? && e.ruleId == r && e.answer.Some? && fp in CurrentOf(hash, e.answer.value)
  }

  /** A firing instance that a successful query still contains is notified at that tick exactly
      when no acknowledgement is in force and 300 s have passed since the stored notification
      time. */
  lemma RenotifiedIff(hash: string -> string, ws: seq<World>, es: seq<Event>, n: nat, r: int, fp: string)
    requires IsRun(hash, ws, es) && Chronological(es) && n < |es|
    requires Sights(hash, es[n], r, fp) && IsFiring(Get(ws[n].states, (r, fp)))
    ensures var row := ws[n].states[(r, fp)];
            var before, after := MailsOf(hash, ws[n].mails, r, fp), MailsOf(hash, ws[n + 1].mails, r, fp);
            && row.lastNotifiedAt.Some?
            && if !(exists k :: InForce(hash, es[..n], r, fp, k)) && es[n].now >= (row.lastNotifiedAt.value + 300) * 1_000_000_000
               then |after| == |before| + 1 && after[|before|].state == Fired && after[|before|].at == es[n].readings(fp).notifiedAt
               else after == before
  {
    hide Encoded, DecodeLabels, CurrentOf, HistoryOf, MailsOf, DurationNs, InForce;
    RunPrefix(hash, ws, es, n);
    AcknowledgedIff(hash, ws[..n + 1], es[..n], r, fp);
    var row := ws[n].states[(r, fp)];
    ReachableRowsOk(hash, ws[..n + 1], es[..n], (r, fp));
    ColumnReads(row.lastNotifiedAt);
    ColumnReads(row.acknowledgedAt);
    assert Next(hash, ws[n], es[n], ws[n + 1]);
    assert CellOf(hash, ws[n + 1], r, fp) == StepCell(hash, es[n], Get(ws[n].rules, r), r, fp, CellOf(hash, ws[n], r, fp));
    NoPhantomSilence(row);
  }

  /** What one present tick reports: nothing, or one entry and one mail with the instance's own
      labels and value. */
  lemma PresentReports(rule: AlertRule, fp: string, inst: Instance, now: int, r: Readings, row: Option<Row>)
    requires row.Some? ==> RowOk(row.value)
    ensures var d := PresentDelta(rule, fp, inst, now, r, row);
            if (!IsFiring(row) && IsFiring(Some(d.row))) ||
               (IsFiring(row) && row.value.acknowledgedAt.None? && now >= (row.value.lastNotifiedAt.value + 300) * 1_000_000_000)
            then
              && |d.items| == 1 && Tells(d.items[0], rule, fp, inst.labels, inst.value, Fired, r.recordedAt)
              && d.mails == [Mail(rule.id, inst.labels, inst.value, Fired, r.notifiedAt)]
            else d.items == [] && d.mails == []
  {
    hide Encoded, DecodeLabels, DurationNs;
    LabelsRoundTrip(inst.labels);
    if row.Some? {
      ColumnReads(row.value.lastNotifiedAt);
      ColumnReads(row.value.acknowledgedAt);
      NoPhantomSilence(row.value);
    }
  }

  /** What a successful query that contains the instance reports, in every run. The instance's
      history and mails grow by one entry each exactly when it enters firing, or is firing with no
      acknowledgement in force and 300 s gone since the stored notification; otherwise they stay as
      they are. Entry and mail name the rule and carry the labels and the value of the last series
      with the fingerprint, the entry with the whole second of its own clock reading. */
  lemma FiringReported(hash: string -> string, ws: seq<World>, es: seq<Event>, n: nat, fp: string, k: nat, labels: LabelSet)
    requires IsRun(hash, ws, es) && Chronological(es) && n < |es| && es[n].Tick? && es[n].answer.Some?
    requires var results := es[n].answer.value;
             && k < |results| && labels == (if results[k].metric.Some? then results[k].metric.value else map[])
             && hash(Canonical(labels)) == fp
             && forall i :: k < i < |results| ==> hash(Canonical(LabelsOf(results[i]))) != fp
    ensures var r, value := es[n].ruleId, es[n].answer.value[k].value;
            var row, row' := Get(ws[n].states, (r, fp)), Get(ws[n + 1].states, (r, fp));
            var h, h' := HistoryOf(ws[n].history, r, fp), HistoryOf(ws[n + 1].history, r, fp);
            var ms, ms' := MailsOf(hash, ws[n].mails, r, fp), MailsOf(hash, ws[n + 1].mails, r, fp);
            && r in ws[n].rules && ws[n].rules[r].id == r
            && (IsFiring(row) ==> row.value.lastNotifiedAt.Some?)
            && if (!IsFiring(row) && IsFiring(row')) ||
                  (IsFiring(row) && !(exists j :: InForce(hash, es[..n], r, fp, j)) &&
                   es[n].now >= (row.value.lastNotifiedAt.value + 300) * 1_000_000_000)
               then
                 && |h'| == |h| + 1 && h'[..|h|] == h
                 && Tells(h'[|h|], ws[n].rules[r], fp, labels, value, Fired, es[n].readings(fp).recordedAt)
                 && ms' == ms + [Mail(r, labels, value, Fired, es[n].readings(fp).notifiedAt)]
               else h' == h && ms' == ms
  {
    hide Encoded, DecodeLabels, CurrentOf, HistoryOf, MailsOf, PresentDelta, InForce, Canonical, RowOk, Tells;
    var r, results := es[n].ruleId, es[n].answer.value;
    RunPrefix(hash, ws, es, n);
    AcknowledgedIff(hash, ws[..n + 1], es[..n], r, fp);
    CurrentIsLast(hash, results, fp, k, labels);
    assert Next(hash, ws[n], es[n], ws[n + 1]);
    var row := Get(ws[n].states, (r, fp));
    if row.Some? {
      ReachableRowsOk(hash, ws[..n + 1], es[..n], (r, fp));
      FiringNotified(row.value);
    }
    assert CellOf(hash, ws[n + 1], r, fp) == StepCell(hash, es[n], Get(ws[n].rules, r), r, fp, CellOf(hash, ws[n], r, fp));
    PresentReports(ws[n].rules[r], fp, Instance(labels, results[k].value), es[n].now, es[n].readings(fp), row);
  }

  lemma FiringNotified(row: Row)
    requires RowOk(row)
    ensures row.status == Firing ==> row.lastNotifiedAt.Some?
  {
  }

  lemma NoPhantomSilence(row: Row)
    requires RowOk(row)
    ensures row.acknowledgedAt.None? ==> !IsSet(ParseTime(row.silenceUntil))
  {
  }

  ghost predicate FiringAcknowledged(row: Option<Row>) {
    IsFiring(row) && row.value.acknowledgedAt.Some?
  }

  /** The event neither resolves the instance nor edits or deletes its rule. */
  ghost predicate LeavesPresent(hash: string -> string, e: Event, r: int, fp: string) {
    match e
    case Tick(id, answer, _, _, _) => id == r && answer.Some? ==> fp in CurrentOf(hash, answer.value)
    case EditRule(rule) => rule.id != r
    case DeleteRule(id) => id != r
    case _ => true
  }

  lemma AcknowledgedStep(hash: string -> string, e: Event, rule: Option<AlertRule>, r: int, fp: string, c: Cell)
    requires FiringAcknowledged(c.row) && RowOk(c.row.value)
    requires LeavesPresent(hash, e, r, fp)
    ensures var c' := StepCell(hash, e, rule, r, fp, c);
            FiringAcknowledged(c'.row) && c'.mails == c.mails && c'.history == c.history
  {
    hide Encoded, DecodeLabels, CurrentOf, Sub, DurationNs, FormatTime;
  }

  lemma {:induction false} AcknowledgedFrom(hash: string -> string, es: seq<Event>, n: nat, r: int, fp: string)
    requires Admissible(es) && n <= |es|
    requires FiringAcknowledged(CellAt(hash, es[..n], r, fp).row)
    requires forall i :: n <= i < |es| ==> LeavesPresent(hash, es[i], r, fp)
    ensures var c, c' := CellAt(hash, es[..n], r, fp), CellAt(hash, es, r, fp);
            FiringAcknowledged(c'.row) && c'.mails == c.mails && c'.history == c.history
  {
    hide StepCell, LeavesPresent, RowOk;
    if n == |es| {
      assert es[..n] == es;
    } else {
      var front := es[..|es| - 1];
      assert front[..n] == es[..n];
      AcknowledgedFrom(hash, front, n, r, fp);
      RowsKeepShape(hash, front, r, fp);
      assert LeavesPresent(hash, es[|es| - 1], r, fp);
      AcknowledgedStep(hash, es[|es| - 1], RuleAt(front, r), r, fp, CellAt(hash, front, r, fp));
    }
  }

  /** An instance acknowledged while firing stays firing and acknowledged, and sends nothing,
      until it is missing from a successful query or its rule is edited or deleted, whatever
      silence was asked for and however long it lasts. */
  lemma AcknowledgedStaysQuiet(hash: string -> string, ws: seq<World>, es: seq<Event>, n: nat, r: int, fp: string)
    requires IsRun(hash, ws, es) && Chronological(es) && n <= |es|
    requires FiringAcknowledged(Get(ws[n].states, (r, fp)))
    requires forall i :: n <= i < |es| ==> LeavesPresent(hash, es[i], r, fp)
    ensures FiringAcknowledged(Get(ws[|es|].states, (r, fp)))
    ensures MailsOf(hash, ws[|es|].mails, r, fp) == MailsOf(hash, ws[n].mails, r, fp)
    ensures HistoryOf(ws[|es|].history, r, fp) == HistoryOf(ws[n].history, r, fp)
  {
    hide CellAt, Next, HistoryOf, MailsOf, LeavesPresent;
    RunAdmissible(hash, ws, es);
    RunPrefix(hash, ws, es, n);
    RunCell(hash, ws[..n + 1], es[..n], r, fp);
    RunCell(hash, ws, es, r, fp);
    AcknowledgedFrom(hash, es, n, r, fp);
  }

  // ----- other rules -----

  /** The event is about this rule: nothing it does concerns another one. */
  function RuleOf(e: Event): int {
    match e
    case Tick(id, _, _, _, _) => id
    case Acknowledge(id, _, _, _) => id
    case CreateRule(rule) => rule.id
    case EditRule(rule) => rule.id
    case DeleteRule(id) => id
  }

  /** However long other rules are evaluated, acknowledged, edited or deleted, a rule itself, its
      rows, its history and its mails stay as they are. */
  lemma {:induction false} OtherRulesUntouched(hash: string -> string, ws: seq<World>, es: seq<Event>, r: int, fp: string)
    requires Leads(hash, ws, es) && forall e :: e in es ==> RuleOf(e) != r
    ensures CellOf(hash, ws[|es|], r, fp) == CellOf(hash, ws[0], r, fp)
    ensures Get(ws[|es|].rules, r) == Get(ws[0].rules, r)
  {
    hide CurrentOf, TickCell, CellOf;
    if es != [] {
      var n := |es| - 1;
      OtherRulesUntouched(hash, ws[..n + 1], es[..n], r, fp);
      assert es[n] in es && Next(hash, ws[n], es[n], ws[n + 1]);
    }
  }
}
