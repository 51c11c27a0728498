/** The agent registry of the web service (web/registry/store.go): heartbeats, listings and the
    clean-up of agents that have not reported within the TTL. Times are Unix seconds. */
module AgentStore {
  import opened Options
  import opened Strings

  datatype Info = Info(version: string, tasks: seq<string>, ip: string, k8sNode: string, startTime: int)
  datatype Row = Row(info: Info, lastSeen: int)
  datatype Agent = Agent(hostname: string, info: Info, lastSeen: int, online: bool)

  type Table = map<string, Row>

  /** int64(ttl.Seconds()): truncated toward zero. */
  function TtlSeconds(ttl: int): (s: int)
    ensures ttl >= 0 ==> s * 1_000_000_000 <= ttl < (s + 1) * 1_000_000_000
    ensures ttl < 0 ==> (s - 1) * 1_000_000_000 < ttl <= s * 1_000_000_000
  {
    if ttl >= 0 then ttl / 1_000_000_000 else -(-ttl / 1_000_000_000)
  }

  function Cutoff(ttl: int, now: int): int { now - TtlSeconds(ttl) }

  /** Heard from within the TTL: at most that many nanoseconds ago, counted in whole seconds. */
  predicate Online(row: Row, ttl: int, now: int) {
    (now - row.lastSeen) * 1_000_000_000 <= if ttl >= 0 then ttl else ttl + 999_999_999
  }

  /** The listed agent is the stored one, with its online state. */
  predicate Reports(a: Agent, row: Row, ttl: int, now: int) {
    a.info == row.info && a.lastSeen == row.lastSeen && (a.online <==> Online(row, ttl, now))
  }

  lemma OnlineIff(rows: Table, ttl: int, now: int)
    ensures forall h :: h in rows ==> (rows[h].lastSeen >= Cutoff(ttl, now) <==> Online(rows[h], ttl, now))
  {
  }

  // ----- listing -----

  function OnlineHosts(rows: Table, cutoff: int): set<string> {
    set h | h in rows && rows[h].lastSeen >= cutoff
  }

  function AgentOf(rows: Table, h: string, cutoff: int): Agent
    requires h in rows
  {
    Agent(h, rows[h].info, rows[h].lastSeen, rows[h].lastSeen >= cutoff)
  }

  ghost function Agents(rows: Table, hosts: seq<string>, cutoff: int): seq<Agent>
    requires forall h :: h in hosts ==> h in rows
  {
    seq(|hosts|, i requires 0 <= i < |hosts| => AgentOf(rows, hosts[i], cutoff))
  }

  /** The host names of a listing. */
  ghost function Hosts(rows: Table, cutoff: int, onlineOnly: bool): (hosts: seq<string>)
    ensures forall h :: h in hosts <==> h in rows && (onlineOnly ==> rows[h].lastSeen >= cutoff)
    ensures StrictlySorted(hosts)
  {
    SortedKeys(if onlineOnly then OnlineHosts(rows, cutoff) else rows.Keys)
  }

  /** What a listing returns: the agents in host name order, all of them or those online. */
  ghost function Listing(rows: Table, cutoff: int, onlineOnly: bool): seq<Agent> {
    Agents(rows, Hosts(rows, cutoff, onlineOnly), cutoff)
  }

  lemma ListingByHost(rows: Table, cutoff: int, onlineOnly: bool)
    ensures var out, hosts := Listing(rows, cutoff, onlineOnly), Hosts(rows, cutoff, onlineOnly);
            |out| == |hosts| && forall i :: 0 <= i < |out| ==> hosts[i] in rows && out[i] == AgentOf(rows, hosts[i], cutoff)
  {
    var hosts := Hosts(rows, cutoff, onlineOnly);
    assert forall i :: 0 <= i < |hosts| ==> hosts[i] in hosts;
  }

  /** A listing tells each wanted agent's data and state, in host name order, and lists no other. */
  lemma ListingMeans(rows: Table, ttl: int, now: int, onlineOnly: bool)
    ensures var out := Listing(rows, Cutoff(ttl, now), onlineOnly);
            && (forall i :: 0 <= i < |out| ==> out[i].hostname in rows && Reports(out[i], rows[out[i].hostname], ttl, now))
            && (forall i :: 0 <= i < |out| && onlineOnly ==> out[i].online)
            && (forall h :: h in rows && (onlineOnly ==> Online(rows[h], ttl, now)) ==> exists i :: 0 <= i < |out| && out[i].hostname == h)
            && (forall i, j :: 0 <= i < j < |out| ==> Less(out[i].hostname, out[j].hostname))
  {
    OnlineIff(rows, ttl, now);
    hide Online, Cutoff, Listing, Hosts, Less;
    var cutoff := Cutoff(ttl, now);
    var hosts, out := Hosts(rows, cutoff, onlineOnly), Listing(rows, cutoff, onlineOnly);
    ListingByHost(rows, cutoff, onlineOnly);
    assert forall i :: 0 <= i < |out| ==> hosts[i] in hosts;
    forall h | h in rows && (onlineOnly ==> Online(rows[h], ttl, now)) ensures exists i :: 0 <= i < |out| && out[i].hostname == h {
      var i :| 0 <= i < |hosts| && hosts[i] == h;
      assert out[i].hostname == h;
    }
  }

  ghost function Cleaned(rows: Table, cutoff: int): Table {
    map h | h in rows && rows[h].lastSeen >= cutoff :: rows[h]
  }

  datatype Op = Beat(host: string, info: Info, now: int) | Clean(now: int)

  class Store {
    const ttl: int
    var rows: Table

    constructor (ttl: int)
      ensures this.ttl == ttl && rows == map[]
    {
      this.ttl, rows := ttl, map[];
    }

    method Heartbeat(host: string, info: Info, now: int)
      modifies this
      ensures rows == old(rows)[host := Row(info, now)]
    {
      rows := rows[host := Row(info, now)];
    }

    method ListAgents(now: int, onlineOnly: bool) returns (out: seq<Agent>)
      ensures out == Listing(rows, Cutoff(ttl, now), onlineOnly)
    {
      var cutoff := Cutoff(ttl, now);
      var hosts := SelectHosts(cutoff, onlineOnly);
      out := [];
      assert forall h :: h in hosts ==> h in rows;
      for i := 0 to |hosts|
        invariant out == Agents(rows, hosts, cutoff)[..i]
      {
        out := out + [AgentOf(rows, hosts[i], cutoff)];
      }
    }

    /** The matching host names, scanned in any order and then sorted. */
    method SelectHosts(cutoff: int, onlineOnly: bool) returns (hosts: seq<string>)
      ensures hosts == Hosts(rows, cutoff, onlineOnly)
    {
      ghost var wanted := if onlineOnly then OnlineHosts(rows, cutoff) else rows.Keys;
      hosts := [];
      var todo := rows.Keys;
      while todo != {}
        invariant todo <= rows.Keys
        invariant Elements(hosts) == wanted - todo
        invariant forall i, j :: 0 <= i < j < |hosts| ==> hosts[i] != hosts[j]
        decreases todo
      {
        var h :| h in todo;
        if !onlineOnly || rows[h].lastSeen >= cutoff {
          assert h !in Elements(hosts);
          assert Elements(hosts + [h]) == Elements(hosts) + {h};
          hosts := hosts + [h];
        }
        todo := todo - {h};
      }
      assert Elements(hosts) == wanted;
      hosts := SortStrings(hosts);
    }

    /** Any sequence of heartbeats and clean-ups. */
    method PerformAll(ops: seq<Op>)
      requires rows == map[]
      modifies this
      ensures rows == Run(ttl, ops)
    {
      for i := 0 to |ops|
        invariant rows == Run(ttl, ops[..i])
      {
        assert ops[..i + 1][..i] == ops[..i];
        match ops[i]
        case Beat(host, info, now) => Heartbeat(host, info, now);
        case Clean(now) => CleanStale(now);
      }
      assert ops[..|ops|] == ops;
    }

    method CleanStale(now: int)
      modifies this
      ensures rows == Cleaned(old(rows), Cutoff(ttl, now))
      ensures forall h :: Get(rows, h) == if h in old(rows) && Online(old(rows)[h], ttl, now) then Some(old(rows)[h]) else None
    {
      OnlineIff(rows, ttl, now);
      rows := map h | h in rows && rows[h].lastSeen >= Cutoff(ttl, now) :: rows[h];
    }
  }

  // ----- cleaning cannot be observed online -----


  ghost function Run(ttl: int, ops: seq<Op>): Table {
    if ops == [] then map[]
    else
      var rows := Run(ttl, ops[..|ops| - 1]);
      match ops[|ops| - 1]
      case Beat(host, info, now) => rows[host := Row(info, now)]
      case Clean(now) => Cleaned(rows, Cutoff(ttl, now))
  }

  /** The same heartbeats in a store that never deletes. */
  ghost function RunKeeping(ops: seq<Op>): Table {
    if ops == [] then map[]
    else
      var rows := RunKeeping(ops[..|ops| - 1]);
      match ops[|ops| - 1]
      case Beat(host, info, now) => rows[host := Row(info, now)]
      case Clean(_) => rows
  }

  /** It knows every agent that ever reported, as of its last heartbeat. */
  lemma {:induction false} KeepingForgetsNothing(ops: seq<Op>, i: nat)
    requires i < |ops| && ops[i].Beat?
    requires forall j :: i < j < |ops| && ops[j].Beat? ==> ops[j].host != ops[i].host
    ensures Get(RunKeeping(ops), ops[i].host) == Some(Row(ops[i].info, ops[i].now))
  {
    if i < |ops| - 1 {
      KeepingForgetsNothing(ops[..|ops| - 1], i);
    }
  }

  ghost predicate Until(ops: seq<Op>, now: int) {
    && (forall i :: 0 <= i < |ops| ==> ops[i].now <= now)
    && forall i, j :: 0 <= i <= j < |ops| ==> ops[i].now <= ops[j].now
  }

  /** The two stores agree on every agent that is online at `now` or later. */
  ghost predicate AgreeOnline(rows: Table, all: Table, cutoff: int) {
    && (forall h :: h in rows ==> h in all && rows[h] == all[h])
    && forall h :: h in all && all[h].lastSeen >= cutoff ==> h in rows
  }

  lemma {:induction false} RunsAgree(ttl: int, ops: seq<Op>, now: int)
    requires Until(ops, now)
    ensures AgreeOnline(Run(ttl, ops), RunKeeping(ops), Cutoff(ttl, now))
  {
    if ops != [] {
      var front := ops[..|ops| - 1];
      RunsAgree(ttl, front, now);
      RunsAgree(ttl, front, ops[|ops| - 1].now);
    }
  }

  lemma AgreementLists(rows: Table, all: Table, cutoff: int)
    requires AgreeOnline(rows, all, cutoff)
    ensures Listing(rows, cutoff, true) == Listing(all, cutoff, true)
  {
    assert OnlineHosts(rows, cutoff) == OnlineHosts(all, cutoff);
    var hosts := Hosts(rows, cutoff, true);
    assert hosts == Hosts(all, cutoff, true);
    forall i | 0 <= i < |hosts| ensures hosts[i] in rows && hosts[i] in all && AgentOf(rows, hosts[i], cutoff) == AgentOf(all, hosts[i], cutoff) {
      assert hosts[i] in hosts;
    }
  }

  /** For any run of heartbeats and clean-ups on a non-decreasing clock, the online listing is that
      of a store that never deletes. */
  lemma CleaningUnobservable(ttl: int, ops: seq<Op>, now: int)
    requires Until(ops, now)
    ensures Listing(Run(ttl, ops), Cutoff(ttl, now), true) == Listing(RunKeeping(ops), Cutoff(ttl, now), true)
  {
    RunsAgree(ttl, ops, now);
    AgreementLists(Run(ttl, ops), RunKeeping(ops), Cutoff(ttl, now));
  }

  /** Right after a clean-up the full listing is the online listing. */
  lemma CleanListsOnline(rows: Table, cutoff: int)
    ensures Listing(Cleaned(rows, cutoff), cutoff, false) == Listing(rows, cutoff, true)
  {
  }
}
