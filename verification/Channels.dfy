/** The channel manager: `sync`, `restart_channel` and `shutdown_all` over driver threads that report
    into a shared status map at any time.

    Every acquisition of the status lock is one atomic step; `Interfere` lets the driver threads run
    between two steps of the manager, and does whatever the environment says. */
module Channels {
  import opened Wrappers
  import opened Text
  import opened Planning

  datatype Kind = Dingtalk | Telegram | Websocket

  function KindName(k: Kind): string {
    match k
    case Dingtalk => "dingtalk"
    case Telegram => "telegram"
    case Websocket => "websocket"
  }

  datatype Config = Config(kind: Kind, id: string, enabled: bool, settings: string)

  function Key(c: Config): string { KindName(c.kind) + ":" + Trim(c.id) }

  datatype Lifecycle = Starting | Running | Degraded | Reconnecting | Stopped | Failed

  datatype Status = Status(
    kind: Kind, id: string, enabled: bool, state: Lifecycle, lastError: Option<string>, reconnectAttempt: nat,
    lastEvent: Option<string>)

  function StatusOf(c: Config, state: Lifecycle, lastError: Option<string>): Status {
    Status(c.kind, c.id, c.enabled, state, lastError, 0, None)
  }

  /** A held handle: the config it was started with and its driver thread. */
  datatype Handle = Handle(config: Config, driver: nat)

  /** A driver thread: told to shut down, finished running, successfully joined. */
  datatype Driver = Driver(config: Config, told: bool, ended: bool, joined: bool)

  /** What a driver tells its supervisor. */
  datatype Report =
    | MarkRunning(event: string)
    | MarkDegraded(reason: string)
    | MarkReconnecting(attempt: nat, reason: string)

  datatype DriverEvent = Reports(driver: nat, report: Report) | Exit(driver: nat, sawShutdown: bool, error: Option<string>)

  datatype Manager = Manager(channels: map<string, Handle>, statuses: map<string, Status>, drivers: seq<Driver>, clock: nat)

  /** What the manager does not control, by clock: thread scheduling, failures to build or spawn a
      driver, whether a join succeeds in time, and which stops of a shutdown complete at first poll. */
  datatype Env = Env(
    order: set<string> -> seq<string>,
    between: nat -> seq<DriverEvent>,
    buildError: nat -> Option<string>,
    spawnError: nat -> Option<string>,
    joins: nat -> bool,
    immediate: nat -> bool)

  const FRESH := Manager(map[], map[], [], 0)

  // ----- driver threads

  /** `ChannelSupervisorReporter::update_state`. */
  function UpdateState(
    statuses: map<string, Status>, c: Config, state: Lifecycle, lastError: Option<string>, event: Option<string>,
    reconnect: Option<nat>): map<string, Status>
  {
    var prior := if Key(c) in statuses then statuses[Key(c)] else StatusOf(c, Starting, None);
    var attempt := if reconnect.Some? then reconnect.value else if state == Running then 0 else prior.reconnectAttempt;
    statuses[Key(c) := Status(c.kind, c.id, c.enabled, state, lastError, attempt,
                              if event.Some? then event else prior.lastEvent)]
  }

  function Apply(statuses: map<string, Status>, c: Config, report: Report): map<string, Status> {
    match report
    case MarkRunning(event) => UpdateState(statuses, c, Running, None, Some(event), None)
    case MarkDegraded(reason) => UpdateState(statuses, c, Degraded, Some(reason), Some(reason), None)
    case MarkReconnecting(attempt, reason) =>
      UpdateState(statuses, c, Reconnecting, Some(reason), Some(reason), Some(attempt))
  }

  /** One step of a driver thread; a thread that has ended does nothing more. */
  function React(m: Manager, e: DriverEvent): Manager {
    if e.driver >= |m.drivers| || m.drivers[e.driver].ended then m
    else
      var d := m.drivers[e.driver];
      match e
      case Reports(_, report) => m.(statuses := Apply(m.statuses, d.config, report))
      case Exit(_, sawShutdown, error) =>
        var gone := m.(drivers := m.drivers[e.driver := d.(ended := true)]);
        if error.Some? then gone.(statuses := m.statuses[Key(d.config) := StatusOf(d.config, Failed, error)])
        else if sawShutdown && d.told then gone.(statuses := m.statuses[Key(d.config) := StatusOf(d.config, Stopped, None)])
        else gone
  }

  function ReactAll(m: Manager, es: seq<DriverEvent>): Manager {
    if es == [] then m else React(ReactAll(m, es[..|es| - 1]), es[|es| - 1])
  }

  function Interfere(env: Env, m: Manager): Manager {
    var r := ReactAll(m, env.between(m.clock));
    r.(clock := r.clock + 1)
  }

  lemma {:induction false} ReactAllKeepsChannels(m: Manager, es: seq<DriverEvent>)
    ensures ReactAll(m, es).channels == m.channels
  {
    if es != [] {
      ReactAllKeepsChannels(m, es[..|es| - 1]);
    }
  }

  lemma {:induction false} ReactAllKeepsClock(m: Manager, es: seq<DriverEvent>)
    ensures ReactAll(m, es).clock == m.clock
  {
    if es != [] {
      ReactAllKeepsClock(m, es[..|es| - 1]);
    }
  }

  lemma InterfereTicks(env: Env, m: Manager)
    ensures Interfere(env, m).clock == m.clock + 1
  {
    ReactAllKeepsClock(m, env.between(m.clock));
  }

  // ----- starting and stopping

  function Put(env: Env, m: Manager, c: Config, state: Lifecycle, lastError: Option<string>): Manager {
    var r := Interfere(env, m);
    r.(statuses := r.statuses[Key(c) := StatusOf(c, state, lastError)])
  }

  lemma PutKeepsChannels(env: Env, m: Manager, c: Config, state: Lifecycle, lastError: Option<string>)
    ensures Put(env, m, c, state, lastError).channels == m.channels
  {
    ReactAllKeepsChannels(m, env.between(m.clock));
  }

  /** The status writes up to the spawn, which fail or leave the channel ready to spawn. */
  function Announce(env: Env, m: Manager, c: Config): (Manager, bool) {
    var starting := Put(env, m, c, Starting, None);
    var buildError := env.buildError(starting.clock);
    if buildError.Some? then (Put(env, starting, c, Failed, buildError), false)
    else
      var running := Interfere(env, Put(env, starting, c, Running, None));
      var marked := running.(statuses := Apply(running.statuses, c, MarkRunning("channel task started")));
      var spawnError := env.spawnError(marked.clock);
      if spawnError.Some? then (Put(env, marked, c, Failed, spawnError), false) else (marked, true)
  }

  /** A start at this time is refused: its driver cannot be built, or its thread cannot be spawned. */
  predicate Refused(env: Env, clock: nat) {
    env.buildError(clock + 1).Some? || env.spawnError(clock + 3).Some?
  }

  /** When a start that begins at this time is over. */
  function StartEnds(env: Env, clock: nat): nat {
    if env.buildError(clock + 1).Some? then clock + 2 else clock + 4
  }

  lemma AnnounceTicks(env: Env, m: Manager, c: Config)
    ensures
      var (announced, ready) := Announce(env, m, c);
      && ready == !Refused(env, m.clock)
      && announced.clock == if ready then m.clock + 3 else StartEnds(env, m.clock)
  {
    hide Interfere, Apply;
    forall n ensures Interfere(env, n).clock == n.clock + 1 {
      InterfereTicks(env, n);
    }
  }

  /** Starting is only ever asked for a key that is not held, and never touches another handle. The
      channel is held afterwards if and only if the environment did not refuse the start. */
  function StartChannel(env: Env, m: Manager, c: Config): (r: Manager)
    requires Key(c) !in m.channels
    ensures m.channels.Keys <= r.channels.Keys <= m.channels.Keys + {Key(c)}
    ensures forall k :: k in m.channels ==> r.channels[k] == m.channels[k]
    ensures Key(c) in r.channels <==> !Refused(env, m.clock)
    ensures Key(c) in r.channels ==> r.channels[Key(c)].config == c
    ensures r.clock == StartEnds(env, m.clock)
  {
    AnnounceKeepsChannels(env, m, c);
    AnnounceTicks(env, m, c);
    var (announced, ready) := Announce(env, m, c);
    if !ready then announced
    else
      ReactAllKeepsChannels(Spawn(announced, c), env.between(announced.clock));
      InterfereTicks(env, Spawn(announced, c));
      var running := Interfere(env, Spawn(announced, c));
      running.(channels := running.channels[Key(c) := Handle(c, |announced.drivers|)])
  }

  function Spawn(m: Manager, c: Config): Manager { m.(drivers := m.drivers + [Driver(c, false, false, false)]) }

  lemma AnnounceKeepsChannels(env: Env, m: Manager, c: Config)
    ensures Announce(env, m, c).0.channels == m.channels
  {
    hide Put, Interfere, Apply;
    var starting := Put(env, m, c, Starting, None);
    PutKeepsChannels(env, m, c, Starting, None);
    var buildError := env.buildError(starting.clock);
    PutKeepsChannels(env, starting, c, Failed, buildError);
    PutKeepsChannels(env, starting, c, Running, None);
    var put := Put(env, starting, c, Running, None);
    InterfereKeepsChannels(env, put);
    var running := Interfere(env, put);
    var marked := running.(statuses := Apply(running.statuses, c, MarkRunning("channel task started")));
    PutKeepsChannels(env, marked, c, Failed, env.spawnError(marked.clock));
  }

  lemma InterfereKeepsChannels(env: Env, m: Manager)
    ensures Interfere(env, m).channels == m.channels
  {
    ReactAllKeepsChannels(m, env.between(m.clock));
  }

  function Tell(m: Manager, d: nat): Manager {
    if d < |m.drivers| then m.(drivers := m.drivers[d := m.drivers[d].(told := true)]) else m
  }

  /** Waits for a told driver and records how that went. A join succeeds only for a thread that ended. */
  function FinishStop(env: Env, m: Manager, h: Handle): Manager {
    var waited := Interfere(env, m);
    if h.driver < |waited.drivers| && waited.drivers[h.driver].ended && env.joins(waited.clock) then
      var joined := waited.(drivers := waited.drivers[h.driver := waited.drivers[h.driver].(joined := true)]);
      Put(env, joined, h.config, Stopped, None)
    else
      Put(env, waited, h.config, Failed, Some("timed out waiting channel shutdown"))
  }

  function StopChannel(env: Env, m: Manager, key: string): Manager {
    if key !in m.channels then m
    else
      var h := m.channels[key];
      FinishStop(env, Tell(m.(channels := m.channels - {key}), h.driver), h)
  }

  lemma StopKeepsChannels(env: Env, m: Manager, key: string)
    ensures StopChannel(env, m, key).channels == m.channels - {key}
  {
    if key in m.channels {
      var h := m.channels[key];
      var told := Tell(m.(channels := m.channels - {key}), h.driver);
      FinishKeepsChannels(env, told, h);
    }
  }

  lemma FinishKeepsChannels(env: Env, m: Manager, h: Handle)
    ensures FinishStop(env, m, h).channels == m.channels
  {
    hide Put, Interfere;
    var waited := Interfere(env, m);
    InterfereKeepsChannels(env, m);
    PutKeepsChannels(env, waited, h.config, Failed, Some("timed out waiting channel shutdown"));
    if h.driver < |waited.drivers| {
      PutKeepsChannels(env, waited.(drivers := waited.drivers[h.driver := waited.drivers[h.driver].(joined := true)]),
                       h.config, Stopped, None);
    }
  }

  // ----- reconciliation

  function DesiredEnabled(snapshot: seq<Config>): (d: map<string, Config>)
    ensures forall k :: k in d ==> Key(d[k]) == k && d[k].enabled && d[k] in snapshot
  {
    EnabledByKey(snapshot, Key, (c: Config) => c.enabled)
  }

  function SnapshotKeys(snapshot: seq<Config>): set<string> { set c | c in snapshot :: Key(c) }

  function Configs(channels: map<string, Handle>): map<string, Config> {
    map k | k in channels :: channels[k].config
  }

  function StopAll(env: Env, m: Manager, keys: seq<string>): Manager {
    if keys == [] then m else StopChannel(env, StopAll(env, m, keys[..|keys| - 1]), keys[|keys| - 1])
  }

  lemma {:induction false} StopAllKeepsChannels(env: Env, m: Manager, keys: seq<string>)
    ensures StopAll(env, m, keys).channels == m.channels - Elements(keys)
  {
    if keys != [] {
      var init, last := keys[..|keys| - 1], keys[|keys| - 1];
      StopAllKeepsChannels(env, m, init);
      StopKeepsChannels(env, StopAll(env, m, init), last);
      assert keys == init + [last] && Elements(keys) == Elements(init) + {last};
    }
  }

  /** The keys can be started one after the other: known, different from each other, and not held. */
  predicate Startable(m: Manager, keys: seq<string>, desired: map<string, Config>) {
    NoDuplicates(keys) && forall k :: k in keys ==> k in desired && Key(desired[k]) == k && k !in m.channels
  }

  lemma StartableLast(m: Manager, keys: seq<string>, desired: map<string, Config>)
    requires Startable(m, keys, desired) && keys != []
    ensures
      var init, last := keys[..|keys| - 1], keys[|keys| - 1];
      && Startable(m, init, desired) && last !in init && last !in Elements(init) && Elements(keys) == Elements(init) + {last}
      && keys == init + [last] && last in desired && Key(desired[last]) == last && last !in m.channels
  {
    assert keys == keys[..|keys| - 1] + [keys[|keys| - 1]];
    NoDuplicatesSnoc(keys[..|keys| - 1], keys[|keys| - 1]);
    ElementsSnoc(keys[..|keys| - 1], keys[|keys| - 1]);
  }

  function StartAll(env: Env, m: Manager, keys: seq<string>, desired: map<string, Config>): (r: Manager)
    requires Startable(m, keys, desired)
    ensures m.channels.Keys <= r.channels.Keys <= m.channels.Keys + Elements(keys)
    ensures forall k :: k in m.channels ==> r.channels[k] == m.channels[k]
    ensures forall k :: k in keys && k in r.channels ==> r.channels[k].config == desired[k]
    decreases |keys|
  {
    if keys == [] then m
    else
      var init, last := keys[..|keys| - 1], keys[|keys| - 1];
      StartableLast(m, keys, desired);
      StartChannel(env, StartAll(env, m, init, desired), desired[last])
  }

  /** When the start with this number begins, of starts that begin one after the other at `clock`. */
  function StartTime(env: Env, clock: nat, number: nat): nat {
    if number == 0 then clock else StartEnds(env, StartTime(env, clock, number - 1))
  }

  /** The keys whose start the environment refuses, of starts that begin at `clock`. */
  function RefusedKeys(env: Env, clock: nat, keys: seq<string>): set<string> {
    set i | 0 <= i < |keys| && Refused(env, StartTime(env, clock, i)) :: keys[i]
  }

  /** A key is held after all the starts if and only if its own start was not refused. */
  lemma {:induction false} StartAllStarts(env: Env, m: Manager, keys: seq<string>, desired: map<string, Config>)
    requires Startable(m, keys, desired)
    ensures
      var r := StartAll(env, m, keys, desired);
      && r.clock == StartTime(env, m.clock, |keys|)
      && forall i :: 0 <= i < |keys| ==> (keys[i] in r.channels <==> !Refused(env, StartTime(env, m.clock, i)))
    decreases |keys|
  {
    hide StartChannel, Refused, StartEnds, Startable, Elements;
    if keys != [] {
      var init, last := keys[..|keys| - 1], keys[|keys| - 1];
      StartableLast(m, keys, desired);
      StartAllStarts(env, m, init, desired);
      var before, r := StartAll(env, m, init, desired), StartAll(env, m, keys, desired);
      assert r.channels.Keys - {last} == before.channels.Keys;
      forall i | 0 <= i < |keys| - 1
        ensures keys[i] in r.channels <==> !Refused(env, StartTime(env, m.clock, i))
      {
        assert keys[i] == init[i] && init[i] in init;
      }
    }
  }

  lemma StartedKeys(env: Env, m: Manager, keys: seq<string>, desired: map<string, Config>)
    requires Startable(m, keys, desired)
    ensures StartAll(env, m, keys, desired).channels.Keys
         == m.channels.Keys + (Elements(keys) - RefusedKeys(env, m.clock, keys))
    ensures RefusedKeys(env, m.clock, keys) <= Elements(keys)
  {
    hide StartAll, Refused, StartTime;
    StartAllStarts(env, m, keys, desired);
    var held, refused := StartAll(env, m, keys, desired).channels.Keys, RefusedKeys(env, m.clock, keys);
    forall k | k in Elements(keys) ensures k in held <==> k !in refused {
      var i :| 0 <= i < |keys| && keys[i] == k;
      assert forall j :: 0 <= j < |keys| && keys[j] == k ==> j == i;
    }
  }

  /** Corrects or inserts the status of one configured instance. */
  function CorrectOne(statuses: map<string, Status>, c: Config): map<string, Status> {
    if Key(c) !in statuses then statuses[Key(c) := StatusOf(c, Stopped, None)]
    else
      var s := statuses[Key(c)].(enabled := c.enabled, kind := c.kind, id := c.id);
      statuses[Key(c) := if c.enabled then s else s.(state := Stopped, lastError := None, reconnectAttempt := 0)]
  }

  /** Corrects every configured instance, in order. */
  function Correct(statuses: map<string, Status>, snapshot: seq<Config>): map<string, Status> {
    if snapshot == [] then statuses
    else CorrectOne(Correct(statuses, snapshot[..|snapshot| - 1]), snapshot[|snapshot| - 1])
  }

  function Reconcile(env: Env, m: Manager, snapshot: seq<Config>): Manager {
    var r := Interfere(env, m);
    var keys := SnapshotKeys(snapshot);
    r.(statuses := Correct(map k | k in r.statuses && k in keys :: r.statuses[k], snapshot))
  }

  function PlanFor(env: Env, m: Manager, snapshot: seq<Config>): Plan {
    MakePlan(env.order, Configs(m.channels), DesiredEnabled(snapshot))
  }

  /** The manager after all the stops of a plan. */
  function AfterStops(env: Env, m: Manager, p: Plan): Manager {
    StopAll(env, StopAll(env, m, p.stop), p.restart)
  }

  lemma {:induction false} PlanIsStartable(env: Env, m: Manager, snapshot: seq<Config>)
    requires Enumerates(env.order)
    ensures
      var p := PlanFor(env, m, snapshot);
      Startable(AfterStops(env, m, p), p.start + p.restart, DesiredEnabled(snapshot))
  {
    hide MakePlan, StopAll, Enumerates, NoDuplicates;
    var p, desired := PlanFor(env, m, snapshot), DesiredEnabled(snapshot);
    PlanMeaning(env.order, Configs(m.channels), desired);
    StartsMeaning(env.order, Configs(m.channels), desired);
    StopAllKeepsChannels(env, m, p.stop);
    StopAllKeepsChannels(env, StopAll(env, m, p.stop), p.restart);
  }

  function Sync(env: Env, m: Manager, snapshot: seq<Config>): Manager
    requires Enumerates(env.order)
  {
    PlanIsStartable(env, m, snapshot);
    var p := PlanFor(env, m, snapshot);
    Reconcile(env, StartAll(env, AfterStops(env, m, p), p.start + p.restart, DesiredEnabled(snapshot)), snapshot)
  }

  function FindConfig(snapshot: seq<Config>, key: string): (c: Option<Config>)
    ensures c.Some? ==> c.value in snapshot && Key(c.value) == key
    ensures c.None? ==> key !in SnapshotKeys(snapshot)
  {
    if snapshot == [] then None
    else if Key(snapshot[0]) == key then Some(snapshot[0])
    else FindConfig(snapshot[1..], key)
  }

  /** Restarts one enabled channel; a missing or disabled one is refused and nothing changes. */
  function RestartChannel(env: Env, m: Manager, key: string, snapshot: seq<Config>): Result<Manager, string> {
    match FindConfig(snapshot, key)
    case None => Failure("channel '" + key + "' not found in config")
    case Some(c) =>
      if !c.enabled then Failure("channel '" + key + "' is disabled in config")
      else
        StopKeepsChannels(env, m, key);
        Success(Reconcile(env, StartChannel(env, StopChannel(env, m, key), c), snapshot))
  }

  // ----- shutdown

  /** First poll of every stop: the driver is told, and some stops complete at once. Returns the keys
      whose stops are still waiting. */
  function PollAll(env: Env, m: Manager, keys: seq<string>, handles: map<string, Handle>): (Manager, seq<string>) {
    if keys == [] then (m, [])
    else
      var key := keys[|keys| - 1];
      var (before, waiting) := PollAll(env, m, keys[..|keys| - 1], handles);
      if key !in handles then (before, waiting)
      else
        var told := Tell(before, handles[key].driver);
        if env.immediate(told.clock) then (FinishStop(env, told, handles[key]), waiting) else (told, waiting + [key])
  }

  function FinishAll(env: Env, m: Manager, keys: seq<string>, handles: map<string, Handle>): Manager {
    if keys == [] then m
    else
      var before, key := FinishAll(env, m, keys[..|keys| - 1], handles), keys[|keys| - 1];
      if key in handles then FinishStop(env, before, handles[key]) else before
  }

  /** All channels are stopped concurrently. `finished` of the waiting stops have completed, in any order. */
  function Shutdown(env: Env, m: Manager, finished: nat): Manager {
    var (polled, waiting) := PollAll(env, m.(channels := map[]), env.order(m.channels.Keys), m.channels);
    var order := env.order(Elements(waiting));
    FinishAll(env, polled, order[..Min(finished, |order|)], m.channels)
  }

  // ----- runs

  datatype Op =
    | SyncOp(env: Env, snapshot: seq<Config>)
    | RestartOp(env: Env, key: string, snapshot: seq<Config>)
    | ShutdownOp(env: Env, finished: nat)
    | DriverSteps(events: seq<DriverEvent>)

  ghost predicate Sensible(ops: seq<Op>) {
    forall i :: 0 <= i < |ops| && !ops[i].DriverSteps? ==> Enumerates(ops[i].env.order)
  }

  ghost function RunOp(m: Manager, op: Op): Manager
    requires !op.DriverSteps? ==> Enumerates(op.env.order)
  {
    match op
    case SyncOp(env, snapshot) => Sync(env, m, snapshot)
    case RestartOp(env, key, snapshot) =>
      var r := RestartChannel(env, m, key, snapshot);
      if r.Success? then r.value else m
    case ShutdownOp(env, finished) => Shutdown(env, m, finished)
    case DriverSteps(events) => ReactAll(m, events)
  }

  ghost function RunOps(m: Manager, ops: seq<Op>): Manager
    requires Sensible(ops)
  {
    if ops == [] then m
    else
      var before := ops[..|ops| - 1];
      assert forall i :: 0 <= i < |before| ==> before[i] == ops[i];
      RunOp(RunOps(m, before), ops[|ops| - 1])
  }
}
