/** The ACP agent manager: a sync keeps three registries in step, the held agents, the tool registry
    and the command hub. */
module Acp {
  import opened Text
  import opened Planning

  datatype Config = Config(id: string, enabled: bool, command: string, description: string)

  function Key(c: Config): string { Trim(c.id) }

  function ToolName(key: string): string { "acp_agent_" + key }

  /** `tools` are the names in the shared tool registry, which holds other tools too. */
  datatype Manager = Manager(agents: map<string, Config>, tools: set<string>, hub: map<string, string>)

  /** An agent with a blank command is not started. */
  predicate Runnable(c: Config) { Trim(c.command) != [] }

  function StartAgent(m: Manager, c: Config): Manager {
    if !Runnable(c) then m
    else Manager(m.agents[Key(c) := c], m.tools + {ToolName(Trim(c.id))}, m.hub[c.id := c.command])
  }

  function StopAgent(m: Manager, key: string): Manager {
    if key !in m.agents then m
    else Manager(m.agents - {key}, m.tools - {ToolName(Trim(m.agents[key].id))}, m.hub - {key})
  }

  function StopAll(m: Manager, keys: seq<string>): Manager {
    if keys == [] then m else StopAgent(StopAll(m, keys[..|keys| - 1]), keys[|keys| - 1])
  }

  function StartAll(m: Manager, keys: seq<string>, desired: map<string, Config>): Manager
    requires forall k :: k in keys ==> k in desired
  {
    if keys == [] then m
    else
      assert forall k :: k in keys[..|keys| - 1] ==> k in keys;
      StartAgent(StartAll(m, keys[..|keys| - 1], desired), desired[keys[|keys| - 1]])
  }

  function DesiredEnabled(snapshot: seq<Config>): (d: map<string, Config>)
    ensures forall k :: k in d ==> Key(d[k]) == k && d[k].enabled && d[k] in snapshot
  {
    EnabledByKey(snapshot, Key, (c: Config) => c.enabled)
  }

  lemma PlannedAreDesired(order: set<string> -> seq<string>, current: map<string, Config>, desired: map<string, Config>)
    requires Enumerates(order)
    ensures
      var p := MakePlan(order, current, desired);
      forall k :: k in p.start + p.restart ==> k in desired
  {
    hide MakePlan, Enumerates, NoDuplicates;
    StartsMeaning(order, current, desired);
  }

  function Sync(order: set<string> -> seq<string>, m: Manager, snapshot: seq<Config>): Manager
    requires Enumerates(order)
  {
    var desired := DesiredEnabled(snapshot);
    var p := MakePlan(order, m.agents, desired);
    PlannedAreDesired(order, m.agents, desired);
    StartAll(StopAll(StopAll(m, p.stop), p.restart), p.start + p.restart, desired)
  }

  function ShutdownAll(order: set<string> -> seq<string>, m: Manager): Manager { StopAll(m, order(m.agents.Keys)) }

  /** The manager object. */
  class AcpManager {
    var agents: map<string, Config>
    var tools: set<string>
    var hub: map<string, string>

    function View(): Manager
      reads this
    {
      Manager(agents, tools, hub)
    }

    constructor (tools: set<string>)
      ensures View() == Manager(map[], tools, map[])
    {
      this.agents, this.tools, this.hub := map[], tools, map[];
    }

    method Start(c: Config)
      modifies this
      ensures View() == StartAgent(old(View()), c)
    {
      if Trim(c.command) == [] {
        return;
      }
      tools := tools + {ToolName(Trim(c.id))};
      hub := hub[c.id := c.command];
      agents := agents[Key(c) := c];
    }

    method Stop(key: string)
      modifies this
      ensures View() == StopAgent(old(View()), key)
    {
      if key !in agents {
        return;
      }
      tools := tools - {ToolName(Trim(agents[key].id))};
      hub := hub - {key};
      agents := agents - {key};
    }

    method StopEach(keys: seq<string>)
      modifies this
      ensures View() == StopAll(old(View()), keys)
    {
      hide StopAgent;
      for i := 0 to |keys|
        invariant View() == StopAll(old(View()), keys[..i])
      {
        assert keys[..i + 1][..i] == keys[..i];
        Stop(keys[i]);
      }
      assert keys[..|keys|] == keys;
    }

    method SyncTo(order: set<string> -> seq<string>, snapshot: seq<Config>)
      requires Enumerates(order)
      modifies this
      ensures View() == Sync(order, old(View()), snapshot)
    {
      hide StopAll, StartAgent, MakePlan, Enumerates;
      var desired := DesiredEnabled(snapshot);
      PlannedAreDesired(order, agents, desired);
      var p := PlanUpdates(order, agents, desired);
      StopEach(p.stop);
      StopEach(p.restart);
      StartEach(p.start + p.restart, desired);
    }

    method StartEach(keys: seq<string>, desired: map<string, Config>)
      requires forall k :: k in keys ==> k in desired
      modifies this
      ensures View() == StartAll(old(View()), keys, desired)
    {
      hide StartAgent;
      for i := 0 to |keys|
        invariant forall k :: k in keys[..i] ==> k in desired
        invariant View() == StartAll(old(View()), keys[..i], desired)
      {
        assert keys[..i + 1][..i] == keys[..i];
        assert forall k :: k in keys[..i + 1] ==> k in keys;
        Start(desired[keys[i]]);
      }
      assert keys[..|keys|] == keys;
    }
  }

  // ----- the three registries agree

  /** The tools list exactly the held agents, besides the tools of others; and so does the hub, if asked. */
  predicate InStep(m: Manager, others: set<string>, hub: bool) {
    && (forall k :: k in m.agents ==> Key(m.agents[k]) == k)
    && m.tools == others + (set k | k in m.agents :: ToolName(k))
    && (hub ==> m.hub == (map k | k in m.agents :: m.agents[k].command))
  }

  ghost predicate Foreign(others: set<string>) { forall k :: ToolName(k) !in others }

  lemma ToolNameIsInjective(a: string, b: string)
    requires ToolName(a) == ToolName(b)
    ensures a == b
  {
    assert ToolName(a)[10..] == a && ToolName(b)[10..] == b;
  }

  /** Starting an agent that is not held keeps the tools in step, and the hub exactly when its id carries
      no surrounding white space, or it is not started at all: the hub is keyed by the raw id. */
  lemma {:induction false} StartInStep(m: Manager, c: Config, others: set<string>, hub: bool)
    requires InStep(m, others, hub) && Key(c) !in m.agents
    ensures InStep(StartAgent(m, c), others, hub) <==> !hub || !Runnable(c) || c.id == Key(c)
  {
    hide Trim;
    var r := StartAgent(m, c);
    if Runnable(c) {
      assert (set k | k in r.agents :: ToolName(k)) == (set k | k in m.agents :: ToolName(k)) + {ToolName(Key(c))};
      if c.id == Key(c) && hub {
        assert r.hub == (map k | k in r.agents :: r.agents[k].command);
      } else if hub {
        RawIdIsNoKey(m, c);
        assert c.id in r.hub && c.id !in r.agents;
      }
    }
  }

  lemma RawIdIsNoKey(m: Manager, c: Config)
    requires (forall k :: k in m.agents ==> Key(m.agents[k]) == k) && c.id != Key(c)
    ensures c.id !in m.agents
  {
    if c.id in m.agents {
      TrimIsTrimmed(m.agents[c.id].id);
      TrimIsTrimmed(c.id);
    }
  }

  lemma StopInStep(m: Manager, key: string, others: set<string>, hub: bool)
    requires InStep(m, others, hub) && Foreign(others)
    ensures InStep(StopAgent(m, key), others, hub)
  {
    hide Trim;
    if key in m.agents {
      var r := StopAgent(m, key);
      forall k | k in r.agents ensures ToolName(k) != ToolName(key) {
        if ToolName(k) == ToolName(key) {
          ToolNameIsInjective(k, key);
        }
      }
      assert ToolName(key) !in others;
      assert r.tools == others + (set k | k in r.agents :: ToolName(k));
      assert hub ==> r.hub == (map k | k in r.agents :: r.agents[k].command);
    }
  }

  lemma {:induction false} StopAllInStep(m: Manager, keys: seq<string>, others: set<string>, hub: bool)
    requires InStep(m, others, hub) && Foreign(others)
    ensures InStep(StopAll(m, keys), others, hub) && StopAll(m, keys).agents == m.agents - Elements(keys)
  {
    hide InStep, Foreign;
    if keys != [] {
      var init, last := keys[..|keys| - 1], keys[|keys| - 1];
      StopAllInStep(m, init, others, hub);
      StopInStep(StopAll(m, init), last, others, hub);
      assert keys == init + [last] && Elements(keys) == Elements(init) + {last};
    }
  }

  predicate KeyedBy(desired: map<string, Config>) { forall k :: k in desired ==> Key(desired[k]) == k }

  predicate TrimmedIds(desired: map<string, Config>) { forall k :: k in desired ==> desired[k].id == k }

  /** `after` adds to `before` the runnable ones among `keys`. */
  ghost predicate Adds(
    before: map<string, Config>, keys: seq<string>, desired: map<string, Config>, after: map<string, Config>)
    requires forall k :: k in keys ==> k in desired
  {
    && (forall k :: k in after <==> k in before || (k in keys && Runnable(desired[k])))
    && (forall k :: k in before ==> k in after && after[k] == before[k])
    && (forall k :: k in keys && k in after && k !in before ==> after[k] == desired[k])
  }

  lemma AddsOne(
    before: map<string, Config>, init: seq<string>, last: string, desired: map<string, Config>, mid: map<string, Config>)
    requires (forall k :: k in init ==> k in desired) && last in desired && Adds(before, init, desired, mid)
    requires last !in before && last !in init
    ensures
      (forall k :: k in init + [last] ==> k in desired)
      && Adds(before, init + [last], desired, if Runnable(desired[last]) then mid[last := desired[last]] else mid)
  {
    hide Runnable;
    assert forall k :: k in init + [last] <==> k in init || k == last;
  }

  lemma {:induction false} StartAllInStep(
    m: Manager, keys: seq<string>, desired: map<string, Config>, others: set<string>, hub: bool)
    requires InStep(m, others, hub) && KeyedBy(desired) && (hub ==> TrimmedIds(desired)) && NoDuplicates(keys)
    requires forall k :: k in keys ==> k in desired && k !in m.agents
    ensures
      var r := StartAll(m, keys, desired);
      InStep(r, others, hub) && Adds(m.agents, keys, desired, r.agents)
    decreases |keys|
  {
    hide InStep, Runnable, Trim;
    if keys != [] {
      hide Adds;
      var init, last := keys[..|keys| - 1], keys[|keys| - 1];
      assert keys == init + [last];
      StartAllInStep(m, init, desired, others, hub);
      var mid := StartAll(m, init, desired);
      AddsOne(m.agents, init, last, desired, mid.agents);
      NotAdded(m.agents, init, desired, mid.agents, last);
      StartInStep(mid, desired[last], others, hub);
    }
  }

  lemma NotAdded(
    before: map<string, Config>, keys: seq<string>, desired: map<string, Config>, after: map<string, Config>, k: string)
    requires (forall k :: k in keys ==> k in desired) && Adds(before, keys, desired, after) && k !in before && k !in keys
    ensures k !in after
  {}

  // ----- over any run

  datatype Op =
    | SyncOp(order: set<string> -> seq<string>, snapshot: seq<Config>)
    | ShutdownOp(order: set<string> -> seq<string>)

  ghost predicate Sensible(ops: seq<Op>) { forall i :: 0 <= i < |ops| ==> Enumerates(ops[i].order) }

  ghost function RunOp(m: Manager, op: Op): Manager
    requires Enumerates(op.order)
  {
    match op
    case SyncOp(order, snapshot) => Sync(order, m, snapshot)
    case ShutdownOp(order) => ShutdownAll(order, m)
  }

  /** Any calls on a new manager, beside the tools of others. */
  ghost function RunOps(others: set<string>, ops: seq<Op>): Manager
    requires Sensible(ops)
  {
    if ops == [] then Manager(map[], others, map[]) else RunOp(RunOps(others, ops[..|ops| - 1]), ops[|ops| - 1])
  }

  predicate AllRunnable(agents: map<string, Config>) { forall k :: k in agents ==> Runnable(agents[k]) }

  predicate AllTrimmed(ops: seq<Op>) {
    forall i :: 0 <= i < |ops| && ops[i].SyncOp? ==> TrimmedIds(DesiredEnabled(ops[i].snapshot))
  }

  lemma OpInStep(m: Manager, op: Op, others: set<string>, hub: bool)
    requires Enumerates(op.order) && Foreign(others) && InStep(m, others, hub) && AllRunnable(m.agents)
    requires hub && op.SyncOp? ==> TrimmedIds(DesiredEnabled(op.snapshot))
    ensures InStep(RunOp(m, op), others, hub) && AllRunnable(RunOp(m, op).agents)
  {
    hide InStep, Foreign, Enumerates, Sync, ShutdownAll, Runnable, TrimmedIds;
    match op
    case SyncOp(order, snapshot) => SyncResult(order, m, snapshot, others, hub);
    case ShutdownOp(order) => ShutdownResult(order, m, others, hub);
  }

  lemma {:induction false} RunInStep(others: set<string>, ops: seq<Op>, hub: bool)
    requires Sensible(ops) && Foreign(others) && (hub ==> AllTrimmed(ops))
    ensures InStep(RunOps(others, ops), others, hub) && AllRunnable(RunOps(others, ops).agents)
    decreases |ops|
  {
    hide Foreign, Enumerates, RunOp, Runnable, TrimmedIds;
    if ops == [] {
      assert (set k | k in RunOps(others, ops).agents :: ToolName(k)) == {};
    } else {
      hide InStep, AllRunnable;
      RunInStep(others, ops[..|ops| - 1], hub);
      OpInStep(RunOps(others, ops[..|ops| - 1]), ops[|ops| - 1], others, hub);
    }
  }

  /** After any run a sync leaves exactly the enabled agents with a command held, with exactly their tools
      beside those of others, and a second sync changes nothing. The hub lists exactly the held agents
      too as long as no enabled id carried surrounding white space. */
  lemma {:induction false} SyncConverges(
    others: set<string>, ops: seq<Op>, order: set<string> -> seq<string>, snapshot: seq<Config>)
    requires Sensible(ops) && Enumerates(order) && Foreign(others)
    ensures
      var r, desired := Sync(order, RunOps(others, ops), snapshot), DesiredEnabled(snapshot);
      && r.agents == (map k | k in desired && Runnable(desired[k]) :: desired[k])
      && r.tools == others + (set k | k in r.agents :: ToolName(k))
      && (AllTrimmed(ops) && TrimmedIds(desired) ==> r.hub == (map k | k in r.agents :: r.agents[k].command))
      && Sync(order, r, snapshot) == r
  {
    hide Enumerates, Foreign, Sync, RunOps, AllTrimmed, TrimmedIds, Runnable;
    var m, hub := RunOps(others, ops), AllTrimmed(ops) && TrimmedIds(DesiredEnabled(snapshot));
    RunInStep(others, ops, hub);
    SyncResult(order, m, snapshot, others, hub);
    IdleSync(order, Sync(order, m, snapshot), snapshot);
  }

  /** After any run a shutdown leaves no agent and no tool of this manager, and as long as no enabled id
      carried surrounding white space nothing in the hub. */
  lemma {:induction false} ShutdownEmpties(others: set<string>, ops: seq<Op>, order: set<string> -> seq<string>)
    requires Sensible(ops) && Enumerates(order) && Foreign(others)
    ensures
      var r := ShutdownAll(order, RunOps(others, ops));
      r.agents == map[] && r.tools == others && (AllTrimmed(ops) ==> r.hub == map[])
  {
    hide Enumerates, Foreign, RunOps, AllTrimmed, ShutdownAll;
    var m, hub := RunOps(others, ops), AllTrimmed(ops);
    RunInStep(others, ops, hub);
    ShutdownResult(order, m, others, hub);
  }

  lemma ShutdownResult(order: set<string> -> seq<string>, m: Manager, others: set<string>, hub: bool)
    requires Enumerates(order) && InStep(m, others, hub) && Foreign(others)
    ensures
      var r := ShutdownAll(order, m);
      && r.agents == map[] && r.tools == others && (hub ==> r.hub == map[]) && InStep(r, others, hub)
  {
    hide Foreign;
    var keys := order(m.agents.Keys);
    assert Elements(keys) == m.agents.Keys;
    StopAllInStep(m, keys, others, hub);
    var r := ShutdownAll(order, m);
    assert r.agents == map[];
    assert (set k | k in r.agents :: ToolName(k)) == {};
  }

  lemma {:induction false} NothingStarts(m: Manager, keys: seq<string>, desired: map<string, Config>)
    requires forall k :: k in keys ==> k in desired && !Runnable(desired[k])
    ensures StartAll(m, keys, desired) == m
  {
    hide Runnable;
    if keys != [] {
      var init := keys[..|keys| - 1];
      assert forall k :: k in init ==> k in keys;
      NothingStarts(m, init, desired);
    }
  }

  lemma IdleSync(order: set<string> -> seq<string>, m: Manager, snapshot: seq<Config>)
    requires Enumerates(order)
    requires
      var desired := DesiredEnabled(snapshot);
      m.agents == (map k | k in desired && Runnable(desired[k]) :: desired[k])
    ensures Sync(order, m, snapshot) == m
  {
    hide Enumerates, MakePlan, Runnable, NoDuplicates;
    var desired := DesiredEnabled(snapshot);
    var p := MakePlan(order, m.agents, desired);
    StablePlan(order, m.agents, desired);
    StartsMeaning(order, m.agents, desired);
    NothingStarts(m, p.start + p.restart, desired);
  }

  /** After the stops exactly the unchanged agents are held. */
  lemma StopsResult(
    order: set<string> -> seq<string>, m: Manager, desired: map<string, Config>, others: set<string>, hub: bool)
    requires Enumerates(order) && InStep(m, others, hub) && Foreign(others)
    ensures
      var p := MakePlan(order, m.agents, desired);
      var stopped := StopAll(StopAll(m, p.stop), p.restart);
      && InStep(stopped, others, hub)
      && stopped.agents == (map k | k in desired && k in m.agents && m.agents[k] == desired[k] :: desired[k])
  {
    hide InStep, Foreign, Enumerates, MakePlan, StopAll, Elements, NoDuplicates;
    var p := MakePlan(order, m.agents, desired);
    PlanMeaning(order, m.agents, desired);
    StopAllInStep(m, p.stop, others, hub);
    StopAllInStep(StopAll(m, p.stop), p.restart, others, hub);
    var held := StopAll(StopAll(m, p.stop), p.restart).agents;
    assert held == m.agents - Elements(p.stop) - Elements(p.restart);
    forall k ensures k in held <==> k in desired && k in m.agents && m.agents[k] == desired[k] {}
  }

  lemma SyncResult(order: set<string> -> seq<string>, m: Manager, snapshot: seq<Config>, others: set<string>, hub: bool)
    requires Enumerates(order) && InStep(m, others, hub) && Foreign(others)
    requires hub ==> TrimmedIds(DesiredEnabled(snapshot))
    requires forall k :: k in m.agents ==> Runnable(m.agents[k])
    ensures
      var r, desired := Sync(order, m, snapshot), DesiredEnabled(snapshot);
      InStep(r, others, hub) && r.agents == (map k | k in desired && Runnable(desired[k]) :: desired[k])
  {
    hide InStep, Foreign, Enumerates, MakePlan, StopAll, StartAll, Runnable, Elements, NoDuplicates, TrimmedIds;
    var desired := DesiredEnabled(snapshot);
    var p := MakePlan(order, m.agents, desired);
    StartsMeaning(order, m.agents, desired);
    StopsResult(order, m, desired, others, hub);
    var stopped, keys := StopAll(StopAll(m, p.stop), p.restart), p.start + p.restart;
    StartAllInStep(stopped, keys, desired, others, hub);
    hide Adds;
    KeptPlusAdded(m.agents, desired, stopped.agents, keys, StartAll(stopped, keys, desired).agents);
  }

  lemma KeptPlusAdded(
    current: map<string, Config>, desired: map<string, Config>, kept: map<string, Config>, keys: seq<string>,
    after: map<string, Config>)
    requires forall k :: k in current ==> Runnable(current[k])
    requires kept == (map k | k in desired && k in current && current[k] == desired[k] :: desired[k])
    requires forall k :: k in keys <==> k in desired && (k !in current || current[k] != desired[k])
    requires Adds(kept, keys, desired, after)
    ensures after == (map k | k in desired && Runnable(desired[k]) :: desired[k])
  {
    hide Runnable;
    forall k ensures k in after <==> k in desired && Runnable(desired[k]) {}
    forall k | k in after ensures after[k] == desired[k] {}
  }
}
