/** The alert tables as an object (web/alerts/store.go). Every statement is assumed to succeed,
    except for the uniqueness constraint on rule names. */
module AlertStore {
  import opened Options
  import opened Strings
  import opened Labels
  import opened LabelsJson
  import opened AlertModel

  ghost predicate NameTaken(rules: map<int, AlertRule>, name: string, except: int) {
    exists id :: id in rules && id != except && rules[id].name == name
  }

  ghost predicate IsFirst(r: AlertRule, rs: set<AlertRule>) {
    r in rs && forall q :: q in rs ==> r.id <= q.id
  }

  lemma {:induction false} FirstExists(rs: set<AlertRule>) returns (r: AlertRule)
    requires rs != {}
    ensures IsFirst(r, rs)
    decreases rs
  {
    r :| r in rs;
    if rs != {r} {
      var q := FirstExists(rs - {r});
      r := if r.id <= q.id then r else q;
    }
  }

  /** out lists, in order of their ids, the enabled rules that are not in todo; the rules of todo come later. */
  ghost predicate ListedButFor(rules: map<int, AlertRule>, todo: set<AlertRule>, out: seq<AlertRule>) {
    && (forall r :: r in todo ==> Get(rules, r.id) == Some(r))
    && (forall i :: 0 <= i < |out| ==> out[i].enabled && Get(rules, out[i].id) == Some(out[i]))
    && (forall i, r :: 0 <= i < |out| && r in todo ==> out[i].id < r.id)
    && (forall i, j :: 0 <= i < j < |out| ==> out[i].id < out[j].id)
    && (forall id :: id in rules && rules[id].enabled ==> rules[id] in todo || rules[id] in out)
  }

  lemma ListOne(rules: map<int, AlertRule>, todo: set<AlertRule>, out: seq<AlertRule>, r: AlertRule)
    requires ListedButFor(rules, todo, out) && IsFirst(r, todo)
    ensures ListedButFor(rules, todo - {r}, if r.enabled then out + [r] else out)
  {
    forall q | q in todo - {r} ensures r.id < q.id {
      assert Get(rules, q.id) == Some(q) && Get(rules, r.id) == Some(r);
    }
  }

  ghost function WithoutRule(h: seq<HistoryItem>, r: int): seq<HistoryItem> {
    if h == [] then []
    else
      var x := h[|h| - 1];
      WithoutRule(h[..|h| - 1], r) + (if x.ruleId == r then [] else [x])
  }

  ghost function DropStates(states: map<(int, string), Row>, r: int): map<(int, string), Row> {
    map k | k in states && k.0 != r :: states[k]
  }

  /** What UpdateRule answers. */
  datatype Update = Updated(rule: AlertRule) | NameClash | NotFound

  class Store {
    var rules: map<int, AlertRule>
    var nextRuleId: int
    var states: map<(int, string), Row>
    var history: seq<HistoryItem>

    /** Rows are filed under their own id, ids are handed out upwards, names are unique. */
    ghost predicate Valid()
      reads this
    {
      && (forall id :: id in rules ==> rules[id].id == id && id < nextRuleId)
      && (forall i, j :: i in rules && j in rules && rules[i].name == rules[j].name ==> i == j)
    }

    constructor ()
      ensures Valid() && rules == map[] && states == map[] && history == []
    {
      rules, nextRuleId, states, history := map[], 1, map[], [];
    }

    method FindName(name: string, except: int) returns (taken: bool)
      ensures taken <==> NameTaken(rules, name, except)
    {
      taken := exists id :: id in rules && id != except && rules[id].name == name;
    }

    /** Fails, changing nothing, when the name is in use. */
    method CreateRule(rule: AlertRule) returns (r: Option<AlertRule>)
      requires Valid()
      modifies this
      ensures Valid() && states == old(states) && history == old(history)
      ensures r.None? <==> exists id :: id in old(rules) && old(rules)[id].name == rule.name
      ensures r.None? ==> rules == old(rules)
      ensures r.Some? ==> r.value == rule.(id := r.value.id) && r.value.id !in old(rules) && rules == old(rules)[r.value.id := r.value]
    {
      var taken := exists id :: id in rules && rules[id].name == rule.name;
      if taken {
        return None;
      }
      var created := rule.(id := nextRuleId);
      rules, nextRuleId := rules[nextRuleId := created], nextRuleId + 1;
      return Some(created);
    }

    /** On a name clash nothing changes. Otherwise the rule's state rows are gone and its history
        stays; a missing rule is only reported after that. */
    method UpdateRule(rule: AlertRule) returns (r: Update)
      requires Valid()
      modifies this
      ensures Valid() && history == old(history)
      ensures r == NameClash <==> rule.id in old(rules) && NameTaken(old(rules), rule.name, rule.id)
      ensures r == NotFound <==> rule.id !in old(rules)
      ensures r.Updated? ==> r.rule == rule
      ensures r == NameClash ==> rules == old(rules) && states == old(states)
      ensures r != NameClash ==> rules == RulesAfter(old(rules), EditRule(rule)) && states == DropStates(old(states), rule.id)
      ensures r.Updated? ==> rules == old(rules)[rule.id := rule]
      ensures r == NotFound ==> rules == old(rules)
      ensures r != NameClash ==> forall k :: Get(states, k) == if k.0 == rule.id then None else Get(old(states), k)
    {
      if rule.id in rules {
        var taken := FindName(rule.name, rule.id);
        if taken {
          return NameClash;
        }
        rules := rules[rule.id := rule];
      }
      states := map k | k in states && k.0 != rule.id :: states[k];
      var found := Get(rules, rule.id);
      return if found.Some? then Updated(found.value) else NotFound;
    }

    method DeleteRule(id: int)
      requires Valid()
      modifies this
      ensures Valid() && rules == RulesAfter(old(rules), AlertModel.DeleteRule(id))
      ensures states == DropStates(old(states), id)
      ensures history == WithoutRule(old(history), id)
      ensures id !in rules && forall r :: r != id ==> Get(rules, r) == Get(old(rules), r)
      ensures forall k :: Get(states, k) == if k.0 == id then None else Get(old(states), k)
    {
      rules := rules - {id};
      states := map k | k in states && k.0 != id :: states[k];
      var kept: seq<HistoryItem> := [];
      for i := 0 to |history|
        invariant kept == WithoutRule(history[..i], id)
        invariant history == old(history) && rules == old(rules) - {id} && states == DropStates(old(states), id)
      {
        assert history[..i + 1][..i] == history[..i];
        if history[i].ruleId != id {
          kept := kept + [history[i]];
        }
      }
      assert history[..|history|] == history;
      history := kept;
    }

    /** The enabled rules, in order of their ids. */
    method GetEnabledRules() returns (out: seq<AlertRule>)
      requires Valid()
      ensures forall i :: 0 <= i < |out| ==> out[i].enabled && Get(rules, out[i].id) == Some(out[i])
      ensures forall i, j :: 0 <= i < j < |out| ==> out[i].id < out[j].id
      ensures forall id :: id in rules && rules[id].enabled ==> rules[id] in out
    {
      out := [];
      var todo := set id | id in rules :: rules[id];
      while todo != {}
        invariant ListedButFor(rules, todo, out)
        decreases todo
      {
        ghost var first := FirstExists(todo);
        var r :| r in todo && forall q :: q in todo ==> r.id <= q.id;
        ListOne(rules, todo, out, r);
        if r.enabled {
          out := out + [r];
        }
        todo := todo - {r};
      }
    }

    /** All pending and firing rows of a rule, in whatever order the database returns them. */
    method GetActiveStatesForRule(ruleId: int) returns (out: seq<AlertState>)
      ensures forall i :: 0 <= i < |out| ==>
                IsActive(Get(states, (ruleId, out[i].fingerprint))) &&
                out[i] == ReadState(out[i].fingerprint, states[(ruleId, out[i].fingerprint)])
      ensures forall i, j :: 0 <= i < j < |out| ==> out[i].fingerprint != out[j].fingerprint
      ensures forall fp :: IsActive(Get(states, (ruleId, fp))) ==> exists i :: 0 <= i < |out| && out[i].fingerprint == fp
    {
      hide DecodeLabels;
      out := [];
      var todo := states.Keys;
      while todo != {}
        invariant todo <= states.Keys
        invariant forall i :: 0 <= i < |out| ==>
                    (ruleId, out[i].fingerprint) !in todo &&
                    IsActive(Get(states, (ruleId, out[i].fingerprint))) &&
                    out[i] == ReadState(out[i].fingerprint, states[(ruleId, out[i].fingerprint)])
        invariant forall i, j :: 0 <= i < j < |out| ==> out[i].fingerprint != out[j].fingerprint
        invariant forall fp :: IsActive(Get(states, (ruleId, fp))) && (ruleId, fp) !in todo ==>
                    exists i :: 0 <= i < |out| && out[i].fingerprint == fp
        decreases todo
      {
        var k :| k in todo;
        ghost var before := out;
        if k.0 == ruleId && states[k].status != Ok {
          out := out + [ReadState(k.1, states[k])];
          assert out[|before|].fingerprint == k.1;
        }
        todo := todo - {k};
        assert forall i :: 0 <= i < |before| ==> out[i] == before[i];
      }
    }

    method UpsertState(ruleId: int, fp: string, labels: LabelSet, status: Status, lastValue: real,
                       pendingSince: Option<int>, firingSince: Option<int>)
      modifies this`states
      ensures states == old(states)[(ruleId, fp) :=
                Upserted(Get(old(states), (ruleId, fp)), labels, status, lastValue, pendingSince, firingSince)]
      ensures var row := states[(ruleId, fp)];
              && row.labelsJson == Encoded(labels) && row.status == status && row.lastValue == lastValue
              && row.pendingSince == (if pendingSince.Some? then Some(pendingSince.value / 1_000_000_000) else None)
              && row.firingSince == (if firingSince.Some? then Some(firingSince.value / 1_000_000_000) else None)
              && ((ruleId, fp) in old(states) ==>
                    var was := old(states)[(ruleId, fp)];
                    row.acknowledgedAt == was.acknowledgedAt && row.silenceUntil == was.silenceUntil && row.lastNotifiedAt == was.lastNotifiedAt)
    {
      hide Encoded;
      var text := EncodeLabels(labels);
      var k := (ruleId, fp);
      var ps, fs := FormatTime(pendingSince), FormatTime(firingSince);
      if k in states {
        states := states[k := states[k].(labelsJson := text, status := status, lastValue := lastValue,
                                         pendingSince := ps, firingSince := fs)];
      } else {
        states := states[k := Row(text, status, lastValue, ps, fs, None, None, None)];
      }
    }

    /** Applies to a row of any status; a missing row is left missing. */
    method SetAcknowledged(ruleId: int, fp: string, now: int, silenceUntil: Option<int>)
      modifies this`states
      ensures states == if (ruleId, fp) in old(states)
                        then old(states)[(ruleId, fp) := AckRow(old(states)[(ruleId, fp)], now, silenceUntil)]
                        else old(states)
      ensures (ruleId, fp) in states ==>
                && states[(ruleId, fp)].acknowledgedAt == Some(now / 1_000_000_000)
                && states[(ruleId, fp)].silenceUntil == if silenceUntil.Some? then Some(silenceUntil.value / 1_000_000_000) else None
    {
      var k := (ruleId, fp);
      if k in states {
        states := states[k := states[k].(acknowledgedAt := Some(FloorSec(now)), silenceUntil := FormatTime(silenceUntil))];
      }
    }

    method ClearAck(ruleId: int, fp: string)
      modifies this`states
      ensures states == if (ruleId, fp) in old(states)
                        then old(states)[(ruleId, fp) := old(states)[(ruleId, fp)].(acknowledgedAt := None, silenceUntil := None)]
                        else old(states)
    {
      var k := (ruleId, fp);
      if k in states {
        states := states[k := states[k].(acknowledgedAt := None, silenceUntil := None)];
      }
    }

    method SetLastNotified(ruleId: int, fp: string, t: int)
      modifies this`states
      ensures states == if (ruleId, fp) in old(states)
                        then old(states)[(ruleId, fp) := old(states)[(ruleId, fp)].(lastNotifiedAt := Some(t / 1_000_000_000))]
                        else old(states)
    {
      var k := (ruleId, fp);
      if k in states {
        states := states[k := states[k].(lastNotifiedAt := Some(FloorSec(t)))];
      }
    }

    method AddHistory(ruleId: int, ruleName: string, fp: string, labels: LabelSet, expr: string,
                      value: real, state: HistoryState, now: int)
      modifies this`history
      ensures history == old(history) +
                [HistoryItem(ruleId, ruleName, fp, Encoded(labels), expr, value, state, now / 1_000_000_000)]
    {
      var text := EncodeLabels(labels);
      history := history + [HistoryItem(ruleId, ruleName, fp, text, expr, value, state, FloorSec(now))];
    }
  }

  // ----- the store's methods are steps of the model -----

  lemma {:induction false} HistoryWithoutRule(h: seq<HistoryItem>, gone: int, r: int, fp: string)
    ensures HistoryOf(WithoutRule(h, gone), r, fp) == if r == gone then [] else HistoryOf(h, r, fp)
  {
    if h != [] {
      var front, x := h[..|h| - 1], h[|h| - 1];
      HistoryWithoutRule(front, gone, r, fp);
      HistoryOfAppend(WithoutRule(front, gone), if x.ruleId == gone then [] else [x], r, fp);
    }
  }

  /** What SetAcknowledged ensures is the Acknowledge step. */
  lemma AcknowledgeStep(hash: string -> string, w: World, r: int, fp: string, now: int, silenceUntil: Option<int>)
    ensures Next(hash, w, Acknowledge(r, fp, now, silenceUntil),
                 w.(states := if (r, fp) in w.states then w.states[(r, fp) := AckRow(w.states[(r, fp)], now, silenceUntil)]
                              else w.states))
  {
  }

  /** What CreateRule ensures on success is the CreateRule step. */
  lemma CreateStep(hash: string -> string, w: World, rule: AlertRule)
    requires rule.id !in w.rules
    ensures Next(hash, w, CreateRule(rule), w.(rules := w.rules[rule.id := rule]))
  {
  }

  /** What UpdateRule ensures without a name clash is the EditRule step. */
  lemma EditStep(hash: string -> string, w: World, rule: AlertRule)
    ensures Next(hash, w, EditRule(rule),
                 w.(rules := RulesAfter(w.rules, EditRule(rule)), states := DropStates(w.states, rule.id)))
  {
  }

  /** What DeleteRule ensures is the DeleteRule step. */
  lemma DeleteStep(hash: string -> string, w: World, id: int)
    ensures Next(hash, w, DeleteRule(id),
                 w.(rules := w.rules - {id}, states := DropStates(w.states, id), history := WithoutRule(w.history, id)))
  {
    forall r, fp ensures HistoryOf(WithoutRule(w.history, id), r, fp) == if r == id then [] else HistoryOf(w.history, r, fp) {
      HistoryWithoutRule(w.history, id, r, fp);
    }
  }
}
