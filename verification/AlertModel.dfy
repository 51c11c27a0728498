/** The alert tables of web/alerts as values: columns, rows, what one evaluator tick does to one
    instance, and the events that interleave with ticks.

    Times are nanoseconds since Go's zero time (0001-01-01T00:00:00Z); columns hold whole
    seconds, because they are written in RFC 3339 text without a fraction. */
module AlertModel {
  import opened Options
  import opened Labels
  import opened LabelsJson

  const SECOND: int := 1_000_000_000
  /** First and last second of the years 0000 to 9999 that `time.Parse(time.RFC3339, …)` reads. */
  const MIN_SECOND: int := -31_622_400
  const MAX_SECOND: int := 315_537_897_599
  const REPEAT_INTERVAL: int := 300 * SECOND
  const MAX_INT64: int := 0x7FFF_FFFF_FFFF_FFFF
  /** Seconds in the largest time.Duration. */
  const MAX_DURATION_SECONDS: int := 9_223_372_036

  function FloorSec(t: int): int { t / SECOND }

  /** formatPtrTime: the column text, as the whole second it denotes. */
  function FormatTime(t: Option<int>): Option<int> {
    if t.None? then None else Some(FloorSec(t.value))
  }

  /** parsePtrTime: a year of more than four digits does not parse and reads as nil. */
  function ParseTime(c: Option<int>): Option<int> {
    if c.Some? && MIN_SECOND <= c.value <= MAX_SECOND then Some(c.value * SECOND) else None
  }

  /** `t != nil && !t.IsZero()` */
  predicate IsSet(t: Option<int>) { t.Some? && t.value != 0 }

  /** The limits of the columns are the calendar's: from the start of the leap year 0, 366 days
      before the zero time, to the last second of the year 9999. */
  lemma CalendarLimits(c: int)
    ensures ParseTime(Some(c)).Some? <==> -366 * 86_400 <= c < (9999 * 365 + 9999 / 4 - 9999 / 100 + 9999 / 400) * 86_400
    ensures ParseTime(Some(c)).Some? ==> ParseTime(Some(c)).value == c * 1_000_000_000
    ensures IsSet(ParseTime(Some(c))) <==> ParseTime(Some(c)).Some? && c != 0
    ensures ParseTime(None) == None && !IsSet(None)
  {
  }

  function Clamp64(x: int): int {
    if x > MAX_INT64 then MAX_INT64 else if x < -MAX_INT64 - 1 then -MAX_INT64 - 1 else x
  }

  /** time.Time.Sub saturates. */
  function Sub(a: int, b: int): int { Clamp64(a - b) }

  /** `time.Duration(d) * time.Second` wraps around. */
  function DurationNs(d: int): int {
    (d * SECOND + MAX_INT64 + 1) % (2 * MAX_INT64 + 2) - MAX_INT64 - 1
  }

  /** The subtraction is exact within the range of a 64-bit number and stops at its ends. */
  lemma SubSaturates(a: int, b: int)
    ensures -0x8000_0000_0000_0000 <= Sub(a, b) <= 0x7FFF_FFFF_FFFF_FFFF
    ensures -0x8000_0000_0000_0000 <= a - b <= 0x7FFF_FFFF_FFFF_FFFF ==> Sub(a, b) == a - b
    ensures a - b > 0x7FFF_FFFF_FFFF_FFFF ==> Sub(a, b) == 0x7FFF_FFFF_FFFF_FFFF
    ensures a - b < -0x8000_0000_0000_0000 ==> Sub(a, b) == -0x8000_0000_0000_0000
  {
  }

  /** The product of a duration and a second, as 64 bits hold it: the one 64-bit number that
      differs from the true product by a multiple of 2^64. */
  lemma DurationWraps(d: int)
    ensures -0x8000_0000_0000_0000 <= DurationNs(d) <= 0x7FFF_FFFF_FFFF_FFFF
    ensures (d * 1_000_000_000 - DurationNs(d)) % 0x1_0000_0000_0000_0000 == 0
  {
    var x := d * SECOND + MAX_INT64 + 1;
    var q := x / (2 * MAX_INT64 + 2);
    assert d * 1_000_000_000 - DurationNs(d) == q * 0x1_0000_0000_0000_0000;
  }

  datatype Status = Ok | Pending | Firing
  datatype HistoryState = Fired | Recovered

  datatype AlertRule = AlertRule(id: int, name: string, enabled: bool, expr: string, duration: int, description: string)

  datatype Row = Row(
    labelsJson: string, status: Status, lastValue: real,
    pendingSince: Option<int>, firingSince: Option<int>,
    acknowledgedAt: Option<int>, silenceUntil: Option<int>, lastNotifiedAt: Option<int>)

  /** A row as the evaluator reads it, times in nanoseconds. */
  datatype AlertState = AlertState(
    fingerprint: string, labels: LabelSet, status: Status, lastValue: real,
    pendingSince: Option<int>, firingSince: Option<int>,
    acknowledgedAt: Option<int>, silenceUntil: Option<int>, lastNotifiedAt: Option<int>)

  function ReadState(fp: string, row: Row): AlertState {
    AlertState(fp, DecodeLabels(row.labelsJson), row.status, row.lastValue,
               ParseTime(row.pendingSince), ParseTime(row.firingSince),
               ParseTime(row.acknowledgedAt), ParseTime(row.silenceUntil), ParseTime(row.lastNotifiedAt))
  }

  predicate IsActive(row: Option<Row>) {
    row.Some? && row.value.status != Ok
  }

  datatype HistoryItem = HistoryItem(
    ruleId: int, ruleName: string, fingerprint: string, labelsJson: string, expr: string,
    value: real, state: HistoryState, triggeredAt: int)

  /** One SendAlert call; `at` is the clock reading taken just before it. */
  datatype Mail = Mail(ruleId: int, labels: LabelSet, value: real, state: HistoryState, at: int)

  /** A series of a query result; a nil label map is None. */
  datatype Vector = Vector(metric: Option<LabelSet>, value: real)
  datatype Instance = Instance(labels: LabelSet, value: real)

  function LabelsOf(v: Vector): LabelSet {
    if v.metric.None? then map[] else v.metric.value
  }

  /** The instances of a query result by fingerprint; a later series replaces an earlier one. */
  ghost function CurrentOf(hash: string -> string, results: seq<Vector>): map<string, Instance> {
    if results == [] then map[]
    else
      var v := results[|results| - 1];
      CurrentOf(hash, results[..|results| - 1])[hash(Canonical(LabelsOf(v))) := Instance(LabelsOf(v), v.value)]
  }

  lemma {:induction false} CurrentKeyed(hash: string -> string, results: seq<Vector>, fp: string)
    requires fp in CurrentOf(hash, results)
    ensures hash(Canonical(CurrentOf(hash, results)[fp].labels)) == fp
  {
    hide Canonical;
    var v := results[|results| - 1];
    if hash(Canonical(LabelsOf(v))) != fp {
      CurrentKeyed(hash, results[..|results| - 1], fp);
    }
  }

  /** Of the series of a result with an instance's fingerprint the last one counts, with all its
      labels and its own value; without one the instance is absent. */
  lemma {:induction false} CurrentIsLast(hash: string -> string, results: seq<Vector>, fp: string, k: nat, labels: LabelSet)
    requires k < |results| && labels == (if results[k].metric.Some? then results[k].metric.value else map[])
    requires hash(Canonical(labels)) == fp
    requires forall i :: k < i < |results| ==> hash(Canonical(LabelsOf(results[i]))) != fp
    ensures fp in CurrentOf(hash, results) && CurrentOf(hash, results)[fp] == Instance(labels, results[k].value)
  {
    hide Canonical;
    if k < |results| - 1 {
      var front := results[..|results| - 1];
      assert forall i :: k < i < |front| ==> front[i] == results[i];
      CurrentIsLast(hash, front, fp, k, labels);
      assert hash(Canonical(LabelsOf(results[|results| - 1]))) != fp;
    }
  }

  lemma {:induction false} CurrentMeansSeries(hash: string -> string, results: seq<Vector>, fp: string)
    ensures fp in CurrentOf(hash, results) <==> exists k :: 0 <= k < |results| && hash(Canonical(LabelsOf(results[k]))) == fp
  {
    hide Canonical, LabelsOf;
    if results != [] {
      var front := results[..|results| - 1];
      CurrentMeansSeries(hash, front, fp);
      if fp in CurrentOf(hash, front) {
        var k :| 0 <= k < |front| && hash(Canonical(LabelsOf(front[k]))) == fp;
        assert results[k] == front[k];
      }
      if k :| 0 <= k < |results| - 1 && hash(Canonical(LabelsOf(results[k]))) == fp {
        assert front[k] == results[k];
      }
    }
  }

  /** The clock readings one instance's history entry and notification take during a tick. */
  datatype Readings = Readings(recordedAt: int, notifiedAt: int)

  // ----- one instance, one tick -----

  /** What a tick does to one instance: its new row, its history entries, its mails. */
  datatype Delta = Delta(row: Row, items: seq<HistoryItem>, mails: seq<Mail>)

  /** UpsertState: replaces labels, status, value and the two "since" columns, keeps the rest. */
  ghost function Upserted(prev: Option<Row>, labels: LabelSet, status: Status, value: real,
                          pendingSince: Option<int>, firingSince: Option<int>): Row {
    Row(Encoded(labels), status, value, FormatTime(pendingSince), FormatTime(firingSince),
        if prev.Some? then prev.value.acknowledgedAt else None,
        if prev.Some? then prev.value.silenceUntil else None,
        if prev.Some? then prev.value.lastNotifiedAt else None)
  }

  ghost function FireDelta(rule: AlertRule, fp: string, inst: Instance, r: Readings, row: Row): Delta {
    Delta(row.(lastNotifiedAt := Some(FloorSec(r.notifiedAt))),
          [HistoryItem(rule.id, rule.name, fp, Encoded(inst.labels), rule.expr, inst.value, Fired, FloorSec(r.recordedAt))],
          [Mail(rule.id, inst.labels, inst.value, Fired, r.notifiedAt)])
  }

  ghost function NewInstance(rule: AlertRule, fp: string, inst: Instance, now: int, r: Readings, row: Option<Row>): Delta {
    if rule.duration == 0 then
      FireDelta(rule, fp, inst, r, Upserted(row, inst.labels, Firing, inst.value, None, Some(now)))
    else
      Delta(Upserted(row, inst.labels, Pending, inst.value, Some(now), None), [], [])
  }

  ghost function StillPending(rule: AlertRule, fp: string, inst: Instance, now: int, r: Readings, row: Row): Delta {
    var stored := ParseTime(row.pendingSince);
    var since := if IsSet(stored) then stored.value else now;
    if Sub(now, since) >= DurationNs(rule.duration) then
      FireDelta(rule, fp, inst, r, Upserted(Some(row), inst.labels, Firing, inst.value, None, Some(now)))
    else
      Delta(Upserted(Some(row), inst.labels, Pending, inst.value, Some(since), None), [], [])
  }

  ghost function StillFiring(rule: AlertRule, fp: string, inst: Instance, now: int, r: Readings, row: Row): Delta {
    var stored := ParseTime(row.firingSince);
    var since := if IsSet(stored) then stored.value else now;
    var silence := ParseTime(row.silenceUntil);
    var last := ParseTime(row.lastNotifiedAt);
    var kept := Upserted(Some(row), inst.labels, Firing, inst.value, None, Some(since));
    if IsSet(ParseTime(row.acknowledgedAt)) then Delta(kept, [], [])
    else if IsSet(silence) && now < silence.value then Delta(kept, [], [])
    else
      var cleared := if IsSet(silence) then kept.(acknowledgedAt := None, silenceUntil := None) else kept;
      if IsSet(last) && Sub(now, last.value) < REPEAT_INTERVAL then Delta(cleared, [], [])
      else FireDelta(rule, fp, inst, r, cleared)
  }

  ghost function PresentDelta(rule: AlertRule, fp: string, inst: Instance, now: int, r: Readings, row: Option<Row>): Delta {
    if !IsActive(row) then NewInstance(rule, fp, inst, now, r, row)
    else if row.value.status == Pending then StillPending(rule, fp, inst, now, r, row.value)
    else StillFiring(rule, fp, inst, now, r, row.value)
  }

  ghost function AbsentDelta(rule: AlertRule, fp: string, r: Readings, row: Row): Delta {
    var labels := DecodeLabels(row.labelsJson);
    var cleared := Upserted(Some(row), labels, Ok, row.lastValue, None, None);
    if row.status == Firing then
      Delta(cleared.(acknowledgedAt := None, silenceUntil := None),
            [HistoryItem(rule.id, rule.name, fp, Encoded(labels), rule.expr, row.lastValue, Recovered, FloorSec(r.recordedAt))],
            [Mail(rule.id, labels, row.lastValue, Recovered, r.recordedAt)])
    else
      Delta(cleared, [], [])
  }

  // ----- the whole database, and one instance's part of it -----

  datatype World = World(
    rules: map<int, AlertRule>, states: map<(int, string), Row>,
    history: seq<HistoryItem>, mails: seq<Mail>)

  /** One instance's row, history and mails. */
  datatype Cell = Cell(row: Option<Row>, history: seq<HistoryItem>, mails: seq<Mail>)

  ghost function HistoryOf(h: seq<HistoryItem>, r: int, fp: string): seq<HistoryItem> {
    if h == [] then []
    else
      var x := h[|h| - 1];
      HistoryOf(h[..|h| - 1], r, fp) + (if x.ruleId == r && x.fingerprint == fp then [x] else [])
  }

  ghost predicate MailConcerns(hash: string -> string, m: Mail, r: int, fp: string) {
    m.ruleId == r && hash(Canonical(m.labels)) == fp
  }

  ghost function MailsOf(hash: string -> string, ms: seq<Mail>, r: int, fp: string): seq<Mail> {
    if ms == [] then []
    else
      var x := ms[|ms| - 1];
      MailsOf(hash, ms[..|ms| - 1], r, fp) + (if MailConcerns(hash, x, r, fp) then [x] else [])
  }

  ghost function CellOf(hash: string -> string, w: World, r: int, fp: string): Cell {
    Cell(Get(w.states, (r, fp)), HistoryOf(w.history, r, fp), MailsOf(hash, w.mails, r, fp))
  }

  ghost function ApplyDelta(w: World, r: int, fp: string, d: Delta): World {
    w.(states := w.states[(r, fp) := d.row], history := w.history + d.items, mails := w.mails + d.mails)
  }

  ghost function ExtendCell(c: Cell, d: Delta): Cell {
    Cell(Some(d.row), c.history + d.items, c.mails + d.mails)
  }

  /** The delta's entries are about this instance, and there is at most one of each. */
  ghost predicate DeltaConcerns(hash: string -> string, d: Delta, r: int, fp: string) {
    && |d.items| <= 1 && |d.mails| <= 1
    && (forall x :: x in d.items ==> x.ruleId == r && x.fingerprint == fp)
    && (forall m :: m in d.mails ==> MailConcerns(hash, m, r, fp))
  }

  /** Every stored row's labels hash to the fingerprint it is stored under. */
  ghost predicate LabelsMatch(hash: string -> string, states: map<(int, string), Row>) {
    forall k :: k in states ==> hash(Canonical(DecodeLabels(states[k].labelsJson))) == k.1
  }

  lemma HistoryOfAppend(h: seq<HistoryItem>, items: seq<HistoryItem>, r: int, fp: string)
    requires |items| <= 1
    ensures HistoryOf(h + items, r, fp) ==
            HistoryOf(h, r, fp) + (if items != [] && items[0].ruleId == r && items[0].fingerprint == fp then items else [])
  {
    if items == [] {
      assert h + items == h;
    } else {
      assert items == [items[0]];
      assert (h + items)[..|h + items| - 1] == h;
    }
  }

  lemma MailsOfAppend(hash: string -> string, ms: seq<Mail>, more: seq<Mail>, r: int, fp: string)
    requires |more| <= 1
    ensures MailsOf(hash, ms + more, r, fp) ==
            MailsOf(hash, ms, r, fp) + (if more != [] && MailConcerns(hash, more[0], r, fp) then more else [])
  {
    if more == [] {
      assert ms + more == ms;
    } else {
      assert more == [more[0]];
      assert (ms + more)[..|ms + more| - 1] == ms;
    }
  }

  /** A delta changes its own instance's cell and no other, whatever rule it belongs to. */
  lemma ApplyDeltaCell(hash: string -> string, w: World, r: int, fp: string, d: Delta, r': int, fp': string)
    requires DeltaConcerns(hash, d, r, fp)
    ensures CellOf(hash, ApplyDelta(w, r, fp, d), r', fp') ==
            if (r', fp') == (r, fp) then ExtendCell(CellOf(hash, w, r, fp), d) else CellOf(hash, w, r', fp')
  {
    hide Canonical, HistoryOf, MailsOf;
    HistoryOfAppend(w.history, d.items, r', fp');
    MailsOfAppend(hash, w.mails, d.mails, r', fp');
    assert d.items != [] ==> d.items[0] in d.items;
    assert d.mails != [] ==> d.mails[0] in d.mails;
  }

  lemma PresentDeltaConcerns(hash: string -> string, rule: AlertRule, fp: string, inst: Instance, now: int, r: Readings, row: Option<Row>)
    requires hash(Canonical(inst.labels)) == fp
    ensures DeltaConcerns(hash, PresentDelta(rule, fp, inst, now, r, row), rule.id, fp)
    ensures hash(Canonical(DecodeLabels(PresentDelta(rule, fp, inst, now, r, row).row.labelsJson))) == fp
  {
    hide Encoded, DecodeLabels, Canonical;
    LabelsRoundTrip(inst.labels);
  }

  lemma AbsentDeltaConcerns(hash: string -> string, rule: AlertRule, fp: string, r: Readings, row: Row)
    requires hash(Canonical(DecodeLabels(row.labelsJson))) == fp
    ensures DeltaConcerns(hash, AbsentDelta(rule, fp, r, row), rule.id, fp)
    ensures hash(Canonical(DecodeLabels(AbsentDelta(rule, fp, r, row).row.labelsJson))) == fp
  {
    hide Encoded, DecodeLabels, Canonical;
    LabelsRoundTrip(DecodeLabels(row.labelsJson));
  }

  // ----- events and steps -----

  datatype Event =
    | Tick(ruleId: int, answer: Option<seq<Vector>>, now: int, end: int, readings: string -> Readings)
    | Acknowledge(ruleId: int, fp: string, now: int, silenceUntil: Option<int>)
    | CreateRule(rule: AlertRule)
    | EditRule(rule: AlertRule)
    | DeleteRule(ruleId: int)

  ghost function PresentCell(rule: AlertRule, fp: string, inst: Instance, now: int, r: Readings, c: Cell): Cell {
    ExtendCell(c, PresentDelta(rule, fp, inst, now, r, c.row))
  }

  ghost function AbsentCell(rule: AlertRule, fp: string, r: Readings, c: Cell): Cell {
    if IsActive(c.row) then ExtendCell(c, AbsentDelta(rule, fp, r, c.row.value)) else c
  }

  ghost function TickCell(rule: AlertRule, current: map<string, Instance>, now: int, readings: string -> Readings,
                          fp: string, c: Cell): Cell {
    if fp in current then PresentCell(rule, fp, current[fp], now, readings(fp), c)
    else AbsentCell(rule, fp, readings(fp), c)
  }

  ghost function AckRow(row: Row, now: int, silenceUntil: Option<int>): Row {
    row.(acknowledgedAt := Some(FloorSec(now)), silenceUntil := FormatTime(silenceUntil))
  }

  /** What an event does to the cell of (r, fp), `rule` being the rule r at that moment. */
  ghost function StepCell(hash: string -> string, e: Event, rule: Option<AlertRule>, r: int, fp: string, c: Cell): Cell {
    match e
    case Tick(id, answer, now, _, readings) =>
      if id == r && rule.Some? && answer.Some? then
        TickCell(rule.value, CurrentOf(hash, answer.value), now, readings, fp, c)
      else c
    case Acknowledge(id, f, now, silenceUntil) =>
      if id == r && f == fp && c.row.Some? then c.(row := Some(AckRow(c.row.value, now, silenceUntil))) else c
    case CreateRule(_) => c
    case EditRule(rule') => if rule'.id == r then c.(row := None) else c
    case DeleteRule(id) => if id == r then c.(row := None, history := []) else c
  }

  ghost function RulesAfter(rules: map<int, AlertRule>, e: Event): map<int, AlertRule> {
    match e
    case Tick(_, _, _, _, _) => rules
    case Acknowledge(_, _, _, _) => rules
    case CreateRule(rule) => rules[rule.id := rule]
    case EditRule(rule) => if rule.id in rules then rules[rule.id := rule] else rules
    case DeleteRule(id) => rules - {id}
  }

  /** Only enabled rules are evaluated; rule ids are never given out twice at a time. */
  ghost predicate Legal(rules: map<int, AlertRule>, e: Event) {
    match e
    case Tick(id, _, _, _, _) => id in rules && rules[id].enabled && rules[id].id == id
    case CreateRule(rule) => rule.id !in rules
    case _ => true
  }

  /** One event's effect, instance by instance: no mention of any iteration order. */
  ghost predicate Next(hash: string -> string, w: World, e: Event, w': World) {
    && Legal(w.rules, e)
    && w'.rules == RulesAfter(w.rules, e)
    && forall r, fp :: CellOf(hash, w', r, fp) == StepCell(hash, e, Get(w.rules, r), r, fp, CellOf(hash, w, r, fp))
  }

  /** The worlds ws are what the events es lead through. */
  ghost predicate Leads(hash: string -> string, ws: seq<World>, es: seq<Event>) {
    |ws| == |es| + 1 && forall i :: 0 <= i < |es| ==> Next(hash, ws[i], es[i], ws[i + 1])
  }

  /** The tables after an event, and every instance's history and mails, are determined by what
      came before: the order in which a tick walks Go's maps makes no difference. */
  lemma NextDeterministic(hash: string -> string, w: World, e: Event, w1: World, w2: World)
    requires Next(hash, w, e, w1) && Next(hash, w, e, w2)
    ensures w1.states == w2.states && w1.rules == w2.rules
    ensures forall r, fp :: HistoryOf(w1.history, r, fp) == HistoryOf(w2.history, r, fp)
    ensures forall r, fp :: MailsOf(hash, w1.mails, r, fp) == MailsOf(hash, w2.mails, r, fp)
  {
    forall r, fp ensures CellOf(hash, w1, r, fp) == CellOf(hash, w2, r, fp) {
    }
    forall r, fp ensures HistoryOf(w1.history, r, fp) == HistoryOf(w2.history, r, fp) {
      assert CellOf(hash, w1, r, fp) == CellOf(hash, w2, r, fp);
    }
    forall r, fp ensures MailsOf(hash, w1.mails, r, fp) == MailsOf(hash, w2.mails, r, fp) {
      assert CellOf(hash, w1, r, fp) == CellOf(hash, w2, r, fp);
    }
    forall k | k in w1.states || k in w2.states
      ensures k in w1.states && k in w2.states && w1.states[k] == w2.states[k]
    {
      assert k == (k.0, k.1);
      assert CellOf(hash, w1, k.0, k.1) == CellOf(hash, w2, k.0, k.1);
    }
    assert w1.states.Keys == w2.states.Keys;
  }
}
