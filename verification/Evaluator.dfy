/** The evaluator (web/alerts/evaluator.go): one tick of one rule over the stored rows, with the
    loops in Go's arbitrary orders, proved to be one instance-by-instance step of the model. */
module Evaluator {
  import opened Options
  import opened Labels
  import opened LabelsJson
  import opened AlertModel
  import opened AlertStore

  /** What findState returns for an instance whose row is `row`. */
  ghost function ActiveState(fp: string, row: Option<Row>): Option<AlertState> {
    if IsActive(row) then Some(ReadState(fp, row.value)) else None
  }

  method FindState(states: seq<AlertState>, fp: string) returns (h: Option<AlertState>)
    ensures h.None? ==> forall i :: 0 <= i < |states| ==> states[i].fingerprint != fp
    ensures h.Some? ==> exists i :: 0 <= i < |states| && states[i] == h.value && states[i].fingerprint == fp
  {
    for i := 0 to |states|
      invariant forall j :: 0 <= j < i ==> states[j].fingerprint != fp
    {
      if states[i].fingerprint == fp {
        return Some(states[i]);
      }
    }
    return None;
  }

  method CurrentInstances(hash: string -> string, results: seq<Vector>) returns (current: map<string, Instance>)
    ensures current == CurrentOf(hash, results)
  {
    hide Canonical;
    current := map[];
    for i := 0 to |results|
      invariant current == CurrentOf(hash, results[..i])
    {
      var labels := LabelsOf(results[i]);
      var fp := Fingerprint(labels, hash);
      assert results[..i + 1][..i] == results[..i];
      current := current[fp := Instance(labels, results[i].value)];
    }
    assert results[..|results|] == results;
  }

  class Evaluator {
    const hash: string -> string
    const store: Store
    var mails: seq<Mail>

    constructor (hash: string -> string, store: Store)
      ensures this.hash == hash && this.store == store && mails == []
    {
      this.hash, this.store, mails := hash, store, [];
    }

    ghost function World(): World
      reads this, store
    {
      AlertModel.World(store.rules, store.states, store.history, mails)
    }

    method Fire(rule: AlertRule, fp: string, inst: Instance, r: Readings)
      requires (rule.id, fp) in store.states
      modifies this`mails, store`states, store`history
      ensures World() == ApplyDelta(old(World()), rule.id, fp,
                                    FireDelta(rule, fp, inst, r, old(store.states)[(rule.id, fp)]))
    {
      hide Encoded;
      store.AddHistory(rule.id, rule.name, fp, inst.labels, rule.expr, inst.value, Fired, r.recordedAt);
      store.SetLastNotified(rule.id, fp, r.notifiedAt);
      mails := mails + [Mail(rule.id, inst.labels, inst.value, Fired, r.notifiedAt)];
    }

    /** Upsert, then notify: the delta of firing on the upserted row. */
    method UpsertAndFire(rule: AlertRule, fp: string, inst: Instance, r: Readings, firingSince: int)
      modifies this`mails, store`states, store`history
      ensures World() == ApplyDelta(old(World()), rule.id, fp, FireDelta(rule, fp, inst, r,
                Upserted(Get(old(store.states), (rule.id, fp)), inst.labels, Firing, inst.value, None, Some(firingSince))))
    {
      hide Encoded;
      store.UpsertState(rule.id, fp, inst.labels, Firing, inst.value, None, Some(firingSince));
      Fire(rule, fp, inst, r);
    }

    method Refresh(rule: AlertRule, fp: string, inst: Instance, status: Status, pendingSince: Option<int>, firingSince: Option<int>)
      modifies this`mails, store`states, store`history
      ensures World() == ApplyDelta(old(World()), rule.id, fp, Delta(
                Upserted(Get(old(store.states), (rule.id, fp)), inst.labels, status, inst.value, pendingSince, firingSince), [], []))
    {
      hide Encoded;
      store.UpsertState(rule.id, fp, inst.labels, status, inst.value, pendingSince, firingSince);
      assert store.history + [] == store.history && mails + [] == mails;
    }

    method RefreshFiring(rule: AlertRule, fp: string, inst: Instance, now: int, r: Readings, h: AlertState)
      requires (rule.id, fp) in store.states
      requires h == ReadState(fp, store.states[(rule.id, fp)]) && h.status == Firing
      modifies this`mails, store`states, store`history
      ensures World() == ApplyDelta(old(World()), rule.id, fp,
                                    StillFiring(rule, fp, inst, now, r, old(store.states)[(rule.id, fp)]))
    {
      hide Encoded, DecodeLabels;
      var firingSince := if IsSet(h.firingSince) then h.firingSince.value else now;
      if IsSet(h.acknowledgedAt) {
        Refresh(rule, fp, inst, Firing, None, Some(firingSince));
        return;
      }
      if IsSet(h.silenceUntil) && now < h.silenceUntil.value {
        Refresh(rule, fp, inst, Firing, None, Some(firingSince));
        return;
      }
      if IsSet(h.silenceUntil) && !(now < h.silenceUntil.value) {
        store.ClearAck(rule.id, fp);
      }
      if IsSet(h.lastNotifiedAt) && Sub(now, h.lastNotifiedAt.value) < REPEAT_INTERVAL {
        Refresh(rule, fp, inst, Firing, None, Some(firingSince));
        return;
      }
      UpsertAndFire(rule, fp, inst, r, firingSince);
    }

    method RefreshPending(rule: AlertRule, fp: string, inst: Instance, now: int, r: Readings, h: AlertState)
      requires (rule.id, fp) in store.states
      requires h == ReadState(fp, store.states[(rule.id, fp)]) && h.status == Pending
      modifies this`mails, store`states, store`history
      ensures World() == ApplyDelta(old(World()), rule.id, fp,
                                    StillPending(rule, fp, inst, now, r, old(store.states)[(rule.id, fp)]))
    {
      hide Encoded, DecodeLabels;
      var pendingSince := if IsSet(h.pendingSince) then h.pendingSince.value else now;
      if Sub(now, pendingSince) >= DurationNs(rule.duration) {
        UpsertAndFire(rule, fp, inst, r, now);
      } else {
        Refresh(rule, fp, inst, Pending, Some(pendingSince), None);
      }
    }

    method Reconcile(rule: AlertRule, fp: string, inst: Instance, now: int, r: Readings, h: Option<AlertState>)
      requires h == ActiveState(fp, Get(store.states, (rule.id, fp)))
      modifies this`mails, store`states, store`history
      ensures World() == ApplyDelta(old(World()), rule.id, fp,
                                    PresentDelta(rule, fp, inst, now, r, Get(old(store.states), (rule.id, fp))))
    {
      hide Encoded, DecodeLabels;
      if h.None? {
        if rule.duration == 0 {
          UpsertAndFire(rule, fp, inst, r, now);
        } else {
          Refresh(rule, fp, inst, Pending, Some(now), None);
        }
      } else if h.value.status == Pending {
        RefreshPending(rule, fp, inst, now, r, h.value);
      } else {
        RefreshFiring(rule, fp, inst, now, r, h.value);
      }
    }

    method Recover(rule: AlertRule, labels: LabelSet, value: real, r: Readings)
      modifies this`mails, store`history
      ensures store.history == old(store.history) + [HistoryItem(rule.id, rule.name, hash(Canonical(labels)),
                Encoded(labels), rule.expr, value, Recovered, FloorSec(r.recordedAt))]
      ensures mails == old(mails) + [Mail(rule.id, labels, value, Recovered, r.recordedAt)]
    {
      hide Encoded, Canonical;
      var fp := Fingerprint(labels, hash);
      store.AddHistory(rule.id, rule.name, fp, labels, rule.expr, value, Recovered, r.recordedAt);
      mails := mails + [Mail(rule.id, labels, value, Recovered, r.recordedAt)];
    }

    /** The recovered entry is filed under the fingerprint recomputed from the stored labels,
        which is the row's own because stored labels hash to their key. */
    method Resolve(rule: AlertRule, h: AlertState, r: Readings)
      requires (rule.id, h.fingerprint) in store.states
      requires IsActive(Get(store.states, (rule.id, h.fingerprint)))
      requires h == ReadState(h.fingerprint, store.states[(rule.id, h.fingerprint)])
      requires hash(Canonical(h.labels)) == h.fingerprint
      modifies this`mails, store`states, store`history
      ensures World() == ApplyDelta(old(World()), rule.id, h.fingerprint,
                                    AbsentDelta(rule, h.fingerprint, r, old(store.states)[(rule.id, h.fingerprint)]))
    {
      hide Encoded, DecodeLabels, Canonical;
      store.UpsertState(rule.id, h.fingerprint, h.labels, Ok, h.lastValue, None, None);
      if h.status == Firing {
        store.ClearAck(rule.id, h.fingerprint);
        Recover(rule, h.labels, h.lastValue, r);
      } else {
        assert store.history + [] == store.history && mails + [] == mails;
      }
    }

    /** First loop: every instance of the result, in arbitrary order. */
    method ReconcileAll(rule: AlertRule, current: map<string, Instance>, historical: seq<AlertState>, now: int, readings: string -> Readings)
      requires forall fp :: fp in current ==> hash(Canonical(current[fp].labels)) == fp
      requires HistoricalOf(historical, rule.id, store.states)
      requires LabelsMatch(hash, store.states)
      modifies this`mails, store`states, store`history
      ensures LabelsMatch(hash, store.states) && store.rules == old(store.rules)
      ensures forall r, fp :: CellOf(hash, World(), r, fp) ==
                if r == rule.id && fp in current then PresentCell(rule, fp, current[fp], now, readings(fp), CellOf(hash, old(World()), r, fp))
                else CellOf(hash, old(World()), r, fp)
    {
      hide Encoded, DecodeLabels, Canonical, HistoryOf, MailsOf, PresentDelta;
      ghost var w0 := World();
      var todo := current.Keys;
      while todo != {}
        invariant todo <= current.Keys
        invariant LabelsMatch(hash, store.states) && store.rules == w0.rules
        invariant forall r, fp :: CellOf(hash, World(), r, fp) ==
                    if r == rule.id && fp in current && fp !in todo
                    then PresentCell(rule, fp, current[fp], now, readings(fp), CellOf(hash, w0, r, fp))
                    else CellOf(hash, w0, r, fp)
        decreases todo
      {
        var fp :| fp in todo;
        ghost var w := World();
        var h := FindState(historical, fp);
        assert CellOf(hash, w, rule.id, fp) == CellOf(hash, w0, rule.id, fp);
        assert h == ActiveState(fp, Get(w.states, (rule.id, fp)));
        ghost var d := PresentDelta(rule, fp, current[fp], now, readings(fp), Get(w.states, (rule.id, fp)));
        PresentDeltaConcerns(hash, rule, fp, current[fp], now, readings(fp), Get(w.states, (rule.id, fp)));
        Reconcile(rule, fp, current[fp], now, readings(fp), h);
        forall r', f ensures CellOf(hash, World(), r', f) ==
          if (r', f) == (rule.id, fp) then ExtendCell(CellOf(hash, w, r', f), d) else CellOf(hash, w, r', f)
        {
          ApplyDeltaCell(hash, w, rule.id, fp, d, r', f);
        }
        todo := todo - {fp};
      }
    }

    /** Resolving one active row steps its instance's cell and no other. */
    method ResolveOne(rule: AlertRule, h: AlertState, r: Readings)
      requires IsReadFrom(h, rule.id, store.states) && LabelsMatch(hash, store.states)
      modifies this`mails, store`states, store`history
      ensures LabelsMatch(hash, store.states) && store.rules == old(store.rules)
      ensures forall id, fp :: CellOf(hash, World(), id, fp) ==
                if (id, fp) == (rule.id, h.fingerprint) then AbsentCell(rule, fp, r, CellOf(hash, old(World()), id, fp))
                else CellOf(hash, old(World()), id, fp)
    {
      hide Encoded, DecodeLabels, Canonical, HistoryOf, MailsOf, AbsentDelta;
      ghost var w := World();
      ghost var row := w.states[(rule.id, h.fingerprint)];
      ghost var d := AbsentDelta(rule, h.fingerprint, r, row);
      AbsentDeltaConcerns(hash, rule, h.fingerprint, r, row);
      Resolve(rule, h, r);
      forall id, fp ensures CellOf(hash, World(), id, fp) ==
        if (id, fp) == (rule.id, h.fingerprint) then ExtendCell(CellOf(hash, w, id, fp), d) else CellOf(hash, w, id, fp)
      {
        ApplyDeltaCell(hash, w, rule.id, h.fingerprint, d, id, fp);
      }
    }

    /** Second loop: every stored active row whose series is gone. */
    method ResolveAll(rule: AlertRule, current: map<string, Instance>, historical: seq<AlertState>, readings: string -> Readings)
      requires AbsentStill(historical, current, rule.id, store.states)
      requires LabelsMatch(hash, store.states)
      modifies this`mails, store`states, store`history
      ensures LabelsMatch(hash, store.states) && store.rules == old(store.rules)
      ensures forall r, fp :: CellOf(hash, World(), r, fp) ==
                if r == rule.id && fp !in current then AbsentCell(rule, fp, readings(fp), CellOf(hash, old(World()), r, fp))
                else CellOf(hash, old(World()), r, fp)
    {
      hide LabelsMatch, HistoryOf, MailsOf, AbsentCell, ReadState, Fingerprints;
      ghost var w0 := World();
      NoFingerprints();
      assert historical[..0] == [];
      for i := 0 to |historical|
        invariant LabelsMatch(hash, store.states) && store.rules == w0.rules
        invariant forall r, fp :: CellOf(hash, World(), r, fp) ==
                    if r == rule.id && fp !in current && fp in Fingerprints(historical[..i])
                    then AbsentCell(rule, fp, readings(fp), CellOf(hash, w0, r, fp))
                    else CellOf(hash, w0, r, fp)
      {
        var h := historical[i];
        NextFingerprint(historical, i);
        if h.fingerprint !in current {
          assert CellOf(hash, World(), rule.id, h.fingerprint) == CellOf(hash, w0, rule.id, h.fingerprint);
          ResolveOne(rule, h, readings(h.fingerprint));
        }
      }
      assert historical[..|historical|] == historical;
      forall fp | fp !in current && fp !in Fingerprints(historical)
        ensures AbsentCell(rule, fp, readings(fp), CellOf(hash, w0, rule.id, fp)) == CellOf(hash, w0, rule.id, fp)
      {
        InactiveStays(hash, rule, fp, readings(fp), w0);
      }
    }

    /** One tick of one rule is the model's Tick step, whatever the iteration orders; a failed
        query changes nothing. */
    method EvaluateRule(rule: AlertRule, answer: Option<seq<Vector>>, now: int, end: int, readings: string -> Readings)
      requires Get(store.rules, rule.id) == Some(rule) && rule.enabled
      requires LabelsMatch(hash, store.states)
      modifies this`mails, store`states, store`history
      ensures Next(hash, old(World()), Tick(rule.id, answer, now, end, readings), World())
      ensures LabelsMatch(hash, store.states)
    {
      hide Encoded, DecodeLabels, Canonical, HistoryOf, MailsOf, CurrentOf, PresentCell, AbsentCell;
      if answer.None? {
        return;
      }
      ghost var w0 := World();
      var current := CurrentInstances(hash, answer.value);
      var historical := store.GetActiveStatesForRule(rule.id);
      forall fp | fp in current ensures hash(Canonical(current[fp].labels)) == fp {
        CurrentKeyed(hash, answer.value, fp);
      }
      ReconcileAll(rule, current, historical, now, readings);
      ghost var w1 := World();
      forall fp | fp !in current ensures Get(w1.states, (rule.id, fp)) == Get(w0.states, (rule.id, fp)) {
        assert CellOf(hash, w1, rule.id, fp) == CellOf(hash, w0, rule.id, fp);
      }
      ResolveAll(rule, current, historical, readings);
      forall r, fp ensures CellOf(hash, World(), r, fp) ==
        StepCell(hash, Tick(rule.id, answer, now, end, readings), Get(w0.rules, r), r, fp, CellOf(hash, w0, r, fp))
      {
        assert CellOf(hash, w1, r, fp) == if r == rule.id && fp in current
          then PresentCell(rule, fp, current[fp], now, readings(fp), CellOf(hash, w0, r, fp)) else CellOf(hash, w0, r, fp);
      }
    }

    /** Evaluating one rule leads a turn one world on. */
    method EvaluateNext(rule: AlertRule, answer: Option<seq<Vector>>, now: int, end: int, readings: string -> Readings,
                        ghost ws: seq<World>, ghost es: seq<Event>) returns (ghost ws': seq<World>, ghost es': seq<Event>)
      requires Get(store.rules, rule.id) == Some(rule) && rule.enabled && LabelsMatch(hash, store.states)
      requires |ws| == |es| + 1 && Leads(hash, ws, es) && ws[|es|] == World()
      modifies this`mails, store`states, store`history
      ensures LabelsMatch(hash, store.states) && store.rules == old(store.rules)
      ensures ws' == ws + [World()] && es' == es + [Tick(rule.id, answer, now, end, readings)] && Leads(hash, ws', es')
    {
      hide LabelsMatch, Next, Leads;
      ghost var w := World();
      EvaluateRule(rule, answer, now, end, readings);
      RulesStay(hash, w, Tick(rule.id, answer, now, end, readings), World());
      LeadsOn(hash, ws, es, Tick(rule.id, answer, now, end, readings), World());
      ws', es' := ws + [World()], es + [Tick(rule.id, answer, now, end, readings)];
    }

    /** One turn of the evaluation loop: every enabled rule is evaluated once, in order of the ids.
        `ws` and `es` show the turn as a stretch of a run, from the world before to the one after. */
    method Evaluate(answers: int -> Option<seq<Vector>>, nows: int -> int, ends: int -> int, readings: int -> (string -> Readings))
      returns (ghost ws: seq<World>, ghost es: seq<Event>)
      requires store.Valid() && LabelsMatch(hash, store.states)
      modifies this`mails, store`states, store`history
      ensures store.Valid() && LabelsMatch(hash, store.states)
      ensures Leads(hash, ws, es) && ws[0] == old(World()) && ws[|es|] == World()
      ensures forall e :: e in es ==> e.Tick? && e == TickOf(e.ruleId, answers, nows, ends, readings)
      ensures forall e :: e in es ==> e.ruleId in store.rules && store.rules[e.ruleId].enabled
      ensures forall i, j :: 0 <= i < j < |es| ==> es[i].ruleId < es[j].ruleId
      ensures forall id :: id in store.rules && store.rules[id].enabled ==> exists e :: e in es && e.Tick? && e.ruleId == id
    {
      hide LabelsMatch, Next, Leads, TickOf;
      NothingYet(hash, World());
      var rules := store.GetEnabledRules();
      ws, es := [World()], [];
      for i := 0 to |rules|
        invariant store.rules == old(store.rules) && LabelsMatch(hash, store.states)
        invariant |es| == i && |ws| == i + 1 && Leads(hash, ws, es) && ws[0] == old(World()) && ws[|es|] == World()
        invariant forall k :: 0 <= k < i ==> es[k] == TickOf(rules[k].id, answers, nows, ends, readings)
      {
        var id := rules[i].id;
        ws, es := EvaluateNext(rules[i], answers(id), nows(id), ends(id), readings(id), ws, es);
        TickOfIs(id, answers, nows, ends, readings);
      }
      TurnTicks(store.rules, rules, es, answers, nows, ends, readings);
    }
  }

  ghost function TickOf(id: int, answers: int -> Option<seq<Vector>>, nows: int -> int, ends: int -> int, readings: int -> (string -> Readings)): Event {
    Tick(id, answers(id), nows(id), ends(id), readings(id))
  }

  lemma TickOfIs(id: int, answers: int -> Option<seq<Vector>>, nows: int -> int, ends: int -> int, readings: int -> (string -> Readings))
    ensures TickOf(id, answers, nows, ends, readings) == Tick(id, answers(id), nows(id), ends(id), readings(id))
  {
  }

  /** One event for each listed rule is one tick of every enabled rule. */
  lemma TurnTicks(rules: map<int, AlertRule>, out: seq<AlertRule>, es: seq<Event>, answers: int -> Option<seq<Vector>>,
                  nows: int -> int, ends: int -> int, readings: int -> (string -> Readings))
    requires forall i :: 0 <= i < |out| ==> out[i].enabled && Get(rules, out[i].id) == Some(out[i])
    requires forall i, j :: 0 <= i < j < |out| ==> out[i].id < out[j].id
    requires forall id :: id in rules ==> rules[id].id == id && (rules[id].enabled ==> rules[id] in out)
    requires |es| == |out| && forall k :: 0 <= k < |es| ==> es[k] == TickOf(out[k].id, answers, nows, ends, readings)
    ensures forall e :: e in es ==> e.Tick? && e == TickOf(e.ruleId, answers, nows, ends, readings)
    ensures forall e :: e in es ==> e.ruleId in rules && rules[e.ruleId].enabled
    ensures forall i, j :: 0 <= i < j < |es| ==> es[i].ruleId < es[j].ruleId
    ensures forall id :: id in rules && rules[id].enabled ==> exists e :: e in es && e.Tick? && e.ruleId == id
  {
    forall id | id in rules && rules[id].enabled ensures exists e :: e in es && e.Tick? && e.ruleId == id {
      var k :| 0 <= k < |out| && out[k] == rules[id];
      assert es[k] in es;
    }
  }

  lemma RulesStay(hash: string -> string, w: World, e: Event, w': World)
    requires Next(hash, w, e, w') && e.Tick?
    ensures w'.rules == w.rules
  {
  }

  lemma NothingYet(hash: string -> string, w: World)
    ensures Leads(hash, [w], [])
  {
  }

  lemma LeadsOn(hash: string -> string, ws: seq<World>, es: seq<Event>, e: Event, w: World)
    requires |ws| == |es| + 1 && Leads(hash, ws, es) && Next(hash, ws[|es|], e, w)
    ensures Leads(hash, ws + [w], es + [e])
  {
    hide Next;
  }

  ghost function Fingerprints(states: seq<AlertState>): set<string> {
    set i | 0 <= i < |states| :: states[i].fingerprint
  }

  lemma NoFingerprints()
    ensures Fingerprints([]) == {}
  {
  }

  /** The next fingerprint is a new one. */
  lemma NextFingerprint(states: seq<AlertState>, i: nat)
    requires i < |states|
    requires forall j :: 0 <= j < i ==> states[j].fingerprint != states[i].fingerprint
    ensures states[i].fingerprint !in Fingerprints(states[..i])
    ensures Fingerprints(states[..i + 1]) == Fingerprints(states[..i]) + {states[i].fingerprint}
  {
    assert states[..i + 1] == states[..i] + [states[i]];
  }

  lemma InactiveStays(hash: string -> string, rule: AlertRule, fp: string, r: Readings, w: World)
    requires !IsActive(Get(w.states, (rule.id, fp)))
    ensures AbsentCell(rule, fp, r, CellOf(hash, w, rule.id, fp)) == CellOf(hash, w, rule.id, fp)
  {
  }

  ghost predicate IsReadFrom(h: AlertState, r: int, states: map<(int, string), Row>) {
    Some(h) == ActiveState(h.fingerprint, Get(states, (r, h.fingerprint)))
  }

  /** `historical` lists exactly the rule's active rows, once each, as read from `states`. */
  ghost predicate HistoricalOf(historical: seq<AlertState>, r: int, states: map<(int, string), Row>) {
    && (forall i :: 0 <= i < |historical| ==> IsReadFrom(historical[i], r, states))
    && (forall i, j :: 0 <= i < j < |historical| ==> historical[i].fingerprint != historical[j].fingerprint)
    && (forall fp :: IsActive(Get(states, (r, fp))) ==> fp in Fingerprints(historical))
  }

  /** The same, for the instances that are not in the query result. */
  ghost predicate AbsentStill(historical: seq<AlertState>, current: map<string, Instance>, r: int, states: map<(int, string), Row>) {
    && (forall i :: 0 <= i < |historical| && historical[i].fingerprint !in current ==> IsReadFrom(historical[i], r, states))
    && (forall i, j :: 0 <= i < j < |historical| ==> historical[i].fingerprint != historical[j].fingerprint)
    && (forall fp :: fp !in current && IsActive(Get(states, (r, fp))) ==> fp in Fingerprints(historical))
  }
}
