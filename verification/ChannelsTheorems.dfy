/** What the channel manager keeps over any run, and what a sync achieves. */
module ChannelsTheorems {
  import opened Wrappers
  import opened Planning
  import opened Channels

  // ----- one driver per key

  /** Handle `h` held under `key` belongs to a driver that was not told to shut down. */
  predicate Holds(drivers: seq<Driver>, key: string, h: Handle) {
    h.driver < |drivers| && drivers[h.driver].config == h.config && Key(h.config) == key && !drivers[h.driver].told
  }

  /** Every driver not told to shut down is the one held for its key; joined threads have ended. */
  predicate DriversTracked(channels: map<string, Handle>, drivers: seq<Driver>) {
    forall d :: 0 <= d < |drivers| ==>
      && (drivers[d].joined ==> drivers[d].ended && drivers[d].told)
      && (!drivers[d].told ==> Key(drivers[d].config) in channels && channels[Key(drivers[d].config)].driver == d)
  }

  predicate Tracked(channels: map<string, Handle>, drivers: seq<Driver>) {
    && (forall k :: k in channels ==> Holds(drivers, k, channels[k]))
    && DriversTracked(channels, drivers)
  }

  predicate Inv(m: Manager) { Tracked(m.channels, m.drivers) }

  /** The same threads, of which more may have ended. */
  predicate OnlyEnds(before: seq<Driver>, after: seq<Driver>) {
    |before| == |after| && forall d :: 0 <= d < |before| ==>
      after[d] == before[d] || after[d] == before[d].(ended := true)
  }

  lemma {:induction false} ReactAllOnlyEnds(m: Manager, es: seq<DriverEvent>)
    ensures OnlyEnds(m.drivers, ReactAll(m, es).drivers)
  {
    hide Apply;
    if es != [] {
      ReactAllOnlyEnds(m, es[..|es| - 1]);
    }
  }

  lemma InterfereFrame(env: Env, m: Manager)
    ensures Interfere(env, m).channels == m.channels && OnlyEnds(m.drivers, Interfere(env, m).drivers)
  {
    InterfereKeepsChannels(env, m);
    ReactAllOnlyEnds(m, env.between(m.clock));
  }

  lemma PutFrame(env: Env, m: Manager, c: Config, state: Lifecycle, lastError: Option<string>)
    ensures Put(env, m, c, state, lastError).channels == m.channels
    ensures OnlyEnds(m.drivers, Put(env, m, c, state, lastError).drivers)
  {
    hide Interfere;
    InterfereFrame(env, m);
  }

  lemma AnnounceFrame(env: Env, m: Manager, c: Config)
    ensures Announce(env, m, c).0.channels == m.channels && OnlyEnds(m.drivers, Announce(env, m, c).0.drivers)
  {
    hide Put, Interfere, Apply;
    var starting := Put(env, m, c, Starting, None);
    PutFrame(env, m, c, Starting, None);
    PutFrame(env, starting, c, Failed, env.buildError(starting.clock));
    var put := Put(env, starting, c, Running, None);
    PutFrame(env, starting, c, Running, None);
    InterfereFrame(env, put);
    var running := Interfere(env, put);
    var marked := running.(statuses := Apply(running.statuses, c, MarkRunning("channel task started")));
    PutFrame(env, marked, c, Failed, env.spawnError(marked.clock));
  }

  lemma EndsKeepTracked(channels: map<string, Handle>, before: seq<Driver>, after: seq<Driver>)
    requires Tracked(channels, before) && OnlyEnds(before, after)
    ensures Tracked(channels, after)
  {}

  lemma SpawnKeepsTracked(channels: map<string, Handle>, drivers: seq<Driver>, c: Config)
    requires Tracked(channels, drivers) && Key(c) !in channels
    ensures Tracked(channels[Key(c) := Handle(c, |drivers|)], drivers + [Driver(c, false, false, false)])
  {}

  lemma StartKeepsInv(env: Env, m: Manager, c: Config)
    requires Inv(m) && Key(c) !in m.channels
    ensures Inv(StartChannel(env, m, c))
  {
    hide Tracked, Announce, Interfere, OnlyEnds;
    var (announced, ready) := Announce(env, m, c);
    AnnounceFrame(env, m, c);
    EndsKeepTracked(m.channels, m.drivers, announced.drivers);
    if ready {
      var spawned := Spawn(announced, c);
      SpawnKeepsTracked(m.channels, announced.drivers, c);
      InterfereFrame(env, spawned);
      var held := m.channels[Key(c) := Handle(c, |announced.drivers|)];
      EndsKeepTracked(held, spawned.drivers, Interfere(env, spawned).drivers);
    }
  }

  /** The driver was told, so joining it or not is all that remains. */
  lemma FinishKeepsInv(env: Env, m: Manager, h: Handle)
    requires Inv(m) && h.driver < |m.drivers| && m.drivers[h.driver].told
    ensures Inv(FinishStop(env, m, h))
    ensures FinishStop(env, m, h).channels == m.channels && |FinishStop(env, m, h).drivers| == |m.drivers|
    ensures forall d :: 0 <= d < |m.drivers| ==> FinishStop(env, m, h).drivers[d].told == m.drivers[d].told
  {
    hide Put, Interfere, Tracked, OnlyEnds;
    var waited := Interfere(env, m);
    InterfereFrame(env, m);
    EndsKeepTold(m.drivers, waited.drivers);
    EndsKeepTracked(m.channels, m.drivers, waited.drivers);
    if waited.drivers[h.driver].ended && env.joins(waited.clock) {
      JoinKeepsTracked(m.channels, waited.drivers, h.driver);
      PutKeepsTracked(env, waited.(drivers := Joined(waited.drivers, h.driver)), h.config, Stopped, None);
    } else {
      PutKeepsTracked(env, waited, h.config, Failed, Some("timed out waiting channel shutdown"));
    }
  }

  function Joined(drivers: seq<Driver>, d: nat): seq<Driver>
    requires d < |drivers|
  {
    drivers[d := drivers[d].(joined := true)]
  }

  lemma JoinKeepsTracked(channels: map<string, Handle>, drivers: seq<Driver>, d: nat)
    requires Tracked(channels, drivers) && d < |drivers| && drivers[d].told && drivers[d].ended
    ensures Tracked(channels, Joined(drivers, d))
  {
    forall k | k in channels ensures Holds(Joined(drivers, d), k, channels[k]) {
      assert Holds(drivers, k, channels[k]);
    }
  }

  lemma EndsKeepTold(before: seq<Driver>, after: seq<Driver>)
    requires OnlyEnds(before, after)
    ensures |before| == |after| && forall d :: 0 <= d < |before| ==> after[d].told == before[d].told
  {}

  lemma PutKeepsTracked(env: Env, m: Manager, c: Config, state: Lifecycle, lastError: Option<string>)
    requires Tracked(m.channels, m.drivers)
    ensures
      var r := Put(env, m, c, state, lastError);
      && r.channels == m.channels && Tracked(r.channels, r.drivers) && |r.drivers| == |m.drivers|
      && forall d :: 0 <= d < |m.drivers| ==> r.drivers[d].told == m.drivers[d].told
  {
    hide Put, Tracked, OnlyEnds;
    var r := Put(env, m, c, state, lastError);
    PutFrame(env, m, c, state, lastError);
    EndsKeepTracked(m.channels, m.drivers, r.drivers);
    EndsKeepTold(m.drivers, r.drivers);
  }

  lemma TellKeepsTracked(channels: map<string, Handle>, drivers: seq<Driver>, key: string)
    requires Tracked(channels, drivers) && key in channels
    ensures
      var d := channels[key].driver;
      d < |drivers| && Tracked(channels - {key}, drivers[d := drivers[d].(told := true)])
  {
    assert Holds(drivers, key, channels[key]);
    var d := channels[key].driver;
    var after, rest := drivers[d := drivers[d].(told := true)], channels - {key};
    forall k | k in rest ensures Holds(after, k, rest[k]) {
      assert Holds(drivers, k, channels[k]);
    }
  }

  lemma StopKeepsInv(env: Env, m: Manager, key: string)
    requires Inv(m)
    ensures Inv(StopChannel(env, m, key))
  {
    hide Tracked, FinishStop;
    if key in m.channels {
      var h := m.channels[key];
      TellKeepsTracked(m.channels, m.drivers, key);
      FinishKeepsInv(env, Tell(m.(channels := m.channels - {key}), h.driver), h);
    }
  }

  lemma {:induction false} StopAllKeepsInv(env: Env, m: Manager, keys: seq<string>)
    requires Inv(m)
    ensures Inv(StopAll(env, m, keys))
  {
    hide Inv, StopChannel;
    if keys != [] {
      StopAllKeepsInv(env, m, keys[..|keys| - 1]);
      StopKeepsInv(env, StopAll(env, m, keys[..|keys| - 1]), keys[|keys| - 1]);
    }
  }

  lemma {:induction false} StartAllKeepsInv(env: Env, m: Manager, keys: seq<string>, desired: map<string, Config>)
    requires Inv(m) && Startable(m, keys, desired)
    ensures Inv(StartAll(env, m, keys, desired))
    decreases |keys|
  {
    hide Inv, StartChannel, Startable, Elements;
    if keys != [] {
      var init, last := keys[..|keys| - 1], keys[|keys| - 1];
      StartableLast(m, keys, desired);
      StartAllKeepsInv(env, m, init, desired);
      StartKeepsInv(env, StartAll(env, m, init, desired), desired[last]);
    }
  }

  lemma ReconcileKeepsInv(env: Env, m: Manager, snapshot: seq<Config>)
    requires Inv(m)
    ensures Inv(Reconcile(env, m, snapshot)) && Reconcile(env, m, snapshot).channels == m.channels
  {
    hide Interfere, Tracked, OnlyEnds;
    InterfereFrame(env, m);
    EndsKeepTracked(m.channels, m.drivers, Interfere(env, m).drivers);
  }

  lemma SyncKeepsInv(env: Env, m: Manager, snapshot: seq<Config>)
    requires Inv(m) && Enumerates(env.order)
    ensures Inv(Sync(env, m, snapshot))
  {
    hide Inv, StopAll, StartAll, Reconcile, PlanFor, Startable;
    PlanIsStartable(env, m, snapshot);
    var p, desired := PlanFor(env, m, snapshot), DesiredEnabled(snapshot);
    StopAllKeepsInv(env, m, p.stop);
    StopAllKeepsInv(env, StopAll(env, m, p.stop), p.restart);
    var stopped := AfterStops(env, m, p);
    StartAllKeepsInv(env, stopped, p.start + p.restart, desired);
    ReconcileKeepsInv(env, StartAll(env, stopped, p.start + p.restart, desired), snapshot);
  }

  lemma RestartKeepsInv(env: Env, m: Manager, key: string, snapshot: seq<Config>)
    requires Inv(m) && RestartChannel(env, m, key, snapshot).Success?
    ensures Inv(RestartChannel(env, m, key, snapshot).value)
  {
    hide Inv, StopChannel, StartChannel, Reconcile;
    var c := FindConfig(snapshot, key).value;
    StopKeepsInv(env, m, key);
    StopKeepsChannels(env, m, key);
    StartKeepsInv(env, StopChannel(env, m, key), c);
    ReconcileKeepsInv(env, StartChannel(env, StopChannel(env, m, key), c), snapshot);
  }

  // ----- shutdown tells every driver

  /** All handles of `keys` are told; the others that were held are still untold but belong to `handles`. */
  predicate TellingOthers(m: Manager, handles: map<string, Handle>, told: set<string>) {
    Tracked(Except(handles, told), m.drivers)
  }

  function Except(handles: map<string, Handle>, told: set<string>): map<string, Handle> {
    map k | k in handles && k !in told :: handles[k]
  }

  lemma TellingStep(m: Manager, handles: map<string, Handle>, told: set<string>, key: string)
    requires TellingOthers(m, handles, told) && key in handles && key !in told
    ensures TellingOthers(Tell(m, handles[key].driver), handles, told + {key})
    ensures handles[key].driver < |m.drivers|
  {
    var rest := Except(handles, told);
    TellKeepsTracked(rest, m.drivers, key);
    assert rest - {key} == Except(handles, told + {key});
  }

  lemma FinishKeepsTelling(env: Env, m: Manager, h: Handle, handles: map<string, Handle>, told: set<string>)
    requires TellingOthers(m, handles, told) && h.driver < |m.drivers| && m.drivers[h.driver].told
    ensures TellingOthers(FinishStop(env, m, h), handles, told)
    ensures |FinishStop(env, m, h).drivers| == |m.drivers|
    ensures forall d :: 0 <= d < |m.drivers| ==> FinishStop(env, m, h).drivers[d].told == m.drivers[d].told
  {
    hide FinishStop, Tracked;
    var held := Except(handles, told);
    FinishStopIgnoresChannels(env, m, held, h);
    FinishKeepsInv(env, m.(channels := held), h);
  }

  /** Stopping a taken handle does not look at the held ones. */
  lemma FinishStopIgnoresChannels(env: Env, m: Manager, held: map<string, Handle>, h: Handle)
    ensures FinishStop(env, m.(channels := held), h) == FinishStop(env, m, h).(channels := held)
  {
    hide React;
    var n := m.(channels := held);
    ReactAllIgnoresChannels(m, held, env.between(m.clock));
    var waited, waited' := Interfere(env, m), Interfere(env, n);
    assert waited' == waited.(channels := held);
    if h.driver < |waited.drivers| {
      var joined := waited.(drivers := waited.drivers[h.driver := waited.drivers[h.driver].(joined := true)]);
      ReactAllIgnoresChannels(joined, held, env.between(waited.clock));
    }
    ReactAllIgnoresChannels(waited, held, env.between(waited.clock));
  }

  lemma {:induction false} ReactAllIgnoresChannels(m: Manager, held: map<string, Handle>, es: seq<DriverEvent>)
    ensures ReactAll(m.(channels := held), es) == ReactAll(m, es).(channels := held)
  {
    hide Apply;
    if es != [] {
      ReactAllIgnoresChannels(m, held, es[..|es| - 1]);
    }
  }

  predicate AllTold(m: Manager, handles: map<string, Handle>, keys: set<string>) {
    forall k :: k in keys && k in handles ==> handles[k].driver < |m.drivers| && m.drivers[handles[k].driver].told
  }

  lemma {:induction false} PollAllTells(env: Env, m: Manager, keys: seq<string>, handles: map<string, Handle>)
    requires TellingOthers(m, handles, {}) && NoDuplicates(keys) && Elements(keys) <= handles.Keys
    ensures
      var (r, waiting) := PollAll(env, m, keys, handles);
      && TellingOthers(r, handles, Elements(keys)) && AllTold(r, handles, Elements(keys))
      && Elements(waiting) <= Elements(keys)
    decreases |keys|
  {
    hide FinishStop, TellingOthers, Elements, AllTold, NoDuplicates;
    if keys == [] {
      NoElements();
      NoneToTell(m, handles);
    } else {
      var init, key := keys[..|keys| - 1], keys[|keys| - 1];
      assert keys == init + [key];
      ElementsSnoc(init, key);
      NoDuplicatesSnoc(init, key);
      PollAllTells(env, m, init, handles);
      var (before, waiting) := PollAll(env, m, init, handles);
      TellOne(env, before, handles, Elements(init), key);
      ElementsSnoc(waiting, key);
    }
  }

  lemma NoneToTell(m: Manager, handles: map<string, Handle>)
    ensures AllTold(m, handles, {})
  {}

  /** Telling one more driver, and possibly finishing its stop. */
  lemma TellOne(env: Env, m: Manager, handles: map<string, Handle>, told: set<string>, key: string)
    requires TellingOthers(m, handles, told) && AllTold(m, handles, told) && key in handles && key !in told
    ensures
      var r := Tell(m, handles[key].driver);
      && TellingOthers(r, handles, told + {key}) && AllTold(r, handles, told + {key})
      && TellingOthers(FinishStop(env, r, handles[key]), handles, told + {key})
      && AllTold(FinishStop(env, r, handles[key]), handles, told + {key})
  {
    hide FinishStop, TellingOthers;
    TellingStep(m, handles, told, key);
    FinishKeepsTelling(env, Tell(m, handles[key].driver), handles[key], handles, told + {key});
  }

  lemma {:induction false} FinishAllKeeps(env: Env, m: Manager, keys: seq<string>, handles: map<string, Handle>)
    requires TellingOthers(m, handles, handles.Keys) && AllTold(m, handles, handles.Keys)
    ensures
      var r := FinishAll(env, m, keys, handles);
      TellingOthers(r, handles, handles.Keys) && AllTold(r, handles, handles.Keys)
  {
    hide FinishStop, Tracked;
    if keys != [] {
      var init, key := keys[..|keys| - 1], keys[|keys| - 1];
      FinishAllKeeps(env, m, init, handles);
      if key in handles {
        FinishKeepsTelling(env, FinishAll(env, m, init, handles), handles[key], handles, handles.Keys);
      }
    }
  }

  lemma NobodyTold(m: Manager, handles: map<string, Handle>)
    requires Tracked(handles, m.drivers)
    ensures TellingOthers(m, handles, {})
  {
    hide Tracked;
    assert Except(handles, {}) == handles;
  }

  lemma EverybodyTold(m: Manager, handles: map<string, Handle>)
    requires TellingOthers(m, handles, handles.Keys)
    ensures Tracked(map[], m.drivers)
  {
    hide Tracked;
    assert Except(handles, handles.Keys) == map[];
  }

  lemma ShutdownKeepsInv(env: Env, m: Manager, finished: nat)
    requires Inv(m) && Enumerates(env.order)
    ensures Inv(Shutdown(env, m, finished)) && Shutdown(env, m, finished).channels == map[]
  {
    hide FinishStop, Tracked, NoDuplicates, AllTold;
    var handles, taken := m.channels, m.(channels := map[]);
    var keys := env.order(handles.Keys);
    assert NoDuplicates(keys) && Elements(keys) == handles.Keys;
    NobodyTold(taken, handles);
    PollAllTells(env, taken, keys, handles);
    var (polled, waiting) := PollAll(env, taken, keys, handles);
    var order := env.order(Elements(waiting));
    var some := order[..Min(finished, |order|)];
    FinishAllKeeps(env, polled, some, handles);
    EverybodyTold(FinishAll(env, polled, some, handles), handles);
    PollAllChannels(env, taken, keys, handles);
    FinishAllChannels(env, polled, some, handles);
  }

  lemma {:induction false} PollAllChannels(env: Env, m: Manager, keys: seq<string>, handles: map<string, Handle>)
    ensures PollAll(env, m, keys, handles).0.channels == m.channels
  {
    hide FinishStop;
    if keys != [] {
      var init, key := keys[..|keys| - 1], keys[|keys| - 1];
      PollAllChannels(env, m, init, handles);
      if key in handles {
        FinishKeepsChannels(env, Tell(PollAll(env, m, init, handles).0, handles[key].driver), handles[key]);
      }
    }
  }

  lemma {:induction false} FinishAllChannels(env: Env, m: Manager, keys: seq<string>, handles: map<string, Handle>)
    ensures FinishAll(env, m, keys, handles).channels == m.channels
  {
    hide FinishStop;
    if keys != [] {
      var init, key := keys[..|keys| - 1], keys[|keys| - 1];
      FinishAllChannels(env, m, init, handles);
      if key in handles {
        FinishKeepsChannels(env, FinishAll(env, m, init, handles), handles[key]);
      }
    }
  }

  lemma OpKeepsInv(m: Manager, op: Op)
    requires Inv(m) && (!op.DriverSteps? ==> Enumerates(op.env.order))
    ensures Inv(RunOp(m, op))
  {
    hide Tracked, OnlyEnds, Enumerates, Sync, Shutdown, RestartChannel;
    match op
    case SyncOp(env, snapshot) => SyncKeepsInv(env, m, snapshot);
    case RestartOp(env, key, snapshot) =>
      if RestartChannel(env, m, key, snapshot).Success? {
        RestartKeepsInv(env, m, key, snapshot);
      }
    case ShutdownOp(env, finished) => ShutdownKeepsInv(env, m, finished);
    case DriverSteps(events) =>
      ReactAllKeepsChannels(m, events);
      ReactAllOnlyEnds(m, events);
      EndsKeepTracked(m.channels, m.drivers, ReactAll(m, events).drivers);
  }

  lemma {:induction false} RunKeepsInv(m: Manager, ops: seq<Op>)
    requires Inv(m) && Sensible(ops)
    ensures Inv(RunOps(m, ops))
    decreases |ops|
  {
    hide Inv, RunOp, Enumerates;
    if ops != [] {
      var before := ops[..|ops| - 1];
      assert forall i :: 0 <= i < |before| ==> before[i] == ops[i];
      RunKeepsInv(m, before);
      OpKeepsInv(RunOps(m, before), ops[|ops| - 1]);
    }
  }

  lemma FreshIsTracked()
    ensures Inv(FRESH)
  {}

  /** Over any run, each key has at most one driver that was not told to shut down, and the held
      handles are exactly those drivers: none is ever overwritten or leaked. */
  lemma {:induction false} OneDriverPerKey(ops: seq<Op>, d: nat, d': nat)
    requires Sensible(ops)
    requires
      var drivers := RunOps(FRESH, ops).drivers;
      && d < |drivers| && d' < |drivers| && !drivers[d].told && !drivers[d'].told
      && Key(drivers[d].config) == Key(drivers[d'].config)
    ensures d == d'
    ensures
      var m := RunOps(FRESH, ops);
      var key := Key(m.drivers[d].config);
      key in m.channels && m.channels[key] == Handle(m.drivers[d].config, d)
  {
    hide RunOps;
    RunKeepsInv(FRESH, ops);
    var m := RunOps(FRESH, ops);
    assert Holds(m.drivers, Key(m.drivers[d].config), m.channels[Key(m.drivers[d].config)]);
  }

  // ----- a sync converges

  /** The keys a sync fails to start: of the starts that follow the stops of its plan, those that the
      environment refuses. Each stop takes two steps. */
  function SyncFailures(env: Env, m: Manager, snapshot: seq<Config>): set<string> {
    var p := PlanFor(env, m, snapshot);
    RefusedKeys(env, m.clock + 2 * (|p.stop| + |p.restart|), p.start + p.restart)
  }

  lemma FinishTicks(env: Env, m: Manager, h: Handle)
    ensures FinishStop(env, m, h).clock == m.clock + 2
  {
    hide Interfere;
    forall n ensures Interfere(env, n).clock == n.clock + 1 {
      InterfereTicks(env, n);
    }
  }

  lemma {:induction false} StopAllTicks(env: Env, m: Manager, keys: seq<string>)
    requires NoDuplicates(keys) && Elements(keys) <= m.channels.Keys
    ensures StopAll(env, m, keys).clock == m.clock + 2 * |keys|
    decreases |keys|
  {
    hide FinishStop;
    if keys != [] {
      var init, last := keys[..|keys| - 1], keys[|keys| - 1];
      assert keys == init + [last];
      ElementsSnoc(init, last);
      NoDuplicatesSnoc(init, last);
      StopAllTicks(env, m, init);
      StopAllKeepsChannels(env, m, init);
      var before := StopAll(env, m, init);
      var h := before.channels[last];
      FinishTicks(env, Tell(before.(channels := before.channels - {last}), h.driver), h);
    }
  }

  lemma AfterStopsTicks(env: Env, m: Manager, snapshot: seq<Config>)
    requires Enumerates(env.order)
    ensures
      var p := PlanFor(env, m, snapshot);
      AfterStops(env, m, p).clock == m.clock + 2 * (|p.stop| + |p.restart|)
  {
    hide StopAll, MakePlan, Enumerates, NoDuplicates, Elements;
    var p, desired := PlanFor(env, m, snapshot), DesiredEnabled(snapshot);
    PlanMeaning(env.order, Configs(m.channels), desired);
    StopAllTicks(env, m, p.stop);
    StopAllKeepsChannels(env, m, p.stop);
    StopAllTicks(env, StopAll(env, m, p.stop), p.restart);
  }

  /** After the stops, exactly the kept channels are held, with their desired configs. */
  lemma AfterStopsChannels(env: Env, m: Manager, snapshot: seq<Config>)
    requires Enumerates(env.order)
    ensures
      var p, desired := PlanFor(env, m, snapshot), DesiredEnabled(snapshot);
      var held := AfterStops(env, m, p).channels;
      && held.Keys == Elements(p.keep) == desired.Keys - Elements(p.start) - Elements(p.restart)
      && Elements(p.start) <= desired.Keys && Elements(p.restart) <= desired.Keys
      && forall k :: k in held ==> held[k].config == desired[k]
  {
    hide StopAll, MakePlan, Enumerates, NoDuplicates, Elements;
    var p, desired := PlanFor(env, m, snapshot), DesiredEnabled(snapshot);
    PlanMeaning(env.order, Configs(m.channels), desired);
    StopAllKeepsChannels(env, m, p.stop);
    StopAllKeepsChannels(env, StopAll(env, m, p.stop), p.restart);
  }

  /** A sync holds what it kept and what it started. */
  lemma SyncChannels(env: Env, m: Manager, snapshot: seq<Config>)
    requires Enumerates(env.order)
    ensures
      var held, desired := Sync(env, m, snapshot).channels, DesiredEnabled(snapshot);
      && SyncFailures(env, m, snapshot) <= desired.Keys
      && held.Keys == desired.Keys - SyncFailures(env, m, snapshot)
      && forall k :: k in held ==> held[k].config == desired[k]
  {
    hide AfterStops, PlanFor, Enumerates, Startable, Correct, Interfere, Elements, StartAll, RefusedKeys;
    PlanIsStartable(env, m, snapshot);
    AfterStopsChannels(env, m, snapshot);
    AfterStopsTicks(env, m, snapshot);
    var p, desired := PlanFor(env, m, snapshot), DesiredEnabled(snapshot);
    var stopped, keys := AfterStops(env, m, p), p.start + p.restart;
    ElementsOfSum(p.start, p.restart);
    StartedKeys(env, stopped, keys, desired);
    InterfereKeepsChannels(env, StartAll(env, stopped, keys, desired));
  }

  lemma ElementsOfSum(a: seq<string>, b: seq<string>)
    ensures Elements(a + b) == Elements(a) + Elements(b)
    ensures forall k :: k in a + b <==> k in Elements(a) || k in Elements(b)
  {}

  /** Reconciliation converges: after a sync exactly the enabled configs are running, minus those whose
      start the environment refused, and an immediate second sync plans no stop and no restart, keeps
      what runs, and starts exactly the refused keys. */
  lemma {:induction false} SyncConverges(env: Env, m: Manager, snapshot: seq<Config>, env': Env)
    requires Enumerates(env.order) && Enumerates(env'.order)
    ensures
      var m' := Sync(env, m, snapshot);
      var desired, failed := DesiredEnabled(snapshot), SyncFailures(env, m, snapshot);
      && Configs(m'.channels) == (map k | k in desired && k !in failed :: desired[k])
      && var again := PlanFor(env', m', snapshot);
         again.stop == [] && again.restart == [] && Elements(again.start) == failed
         && Elements(again.keep) == desired.Keys - failed
  {
    hide Sync, SyncFailures, MakePlan, Enumerates;
    SyncChannels(env, m, snapshot);
    StablePlan(env'.order, Configs(Sync(env, m, snapshot).channels), DesiredEnabled(snapshot));
  }

  /** When no build and no spawn fails, exactly the enabled configs are running. */
  lemma {:induction false} SyncRunsEverything(env: Env, m: Manager, snapshot: seq<Config>)
    requires Enumerates(env.order) && forall t: nat :: !Refused(env, t)
    ensures Configs(Sync(env, m, snapshot).channels) == DesiredEnabled(snapshot)
  {
    hide Sync, PlanFor, Refused, Enumerates;
    SyncChannels(env, m, snapshot);
    assert SyncFailures(env, m, snapshot) == {};
  }

  /** A restart replaces the handle of its key by a new driver with the configured settings, or drops it
      when the environment refuses the start; no other handle changes. */
  lemma {:induction false} RestartReplaces(env: Env, m: Manager, key: string, snapshot: seq<Config>)
    requires RestartChannel(env, m, key, snapshot).Success?
    ensures
      var held, c := RestartChannel(env, m, key, snapshot).value.channels, FindConfig(snapshot, key).value;
      && held - {key} == m.channels - {key}
      && (key in held <==> !Refused(env, m.clock + if key in m.channels then 2 else 0))
      && (key in held ==> held[key].config == c && Key(c) == key && c.enabled)
  {
    hide FinishStop, StartChannel, Refused, Correct, Interfere;
    var c := FindConfig(snapshot, key).value;
    StopKeepsChannels(env, m, key);
    if key in m.channels {
      var h := m.channels[key];
      FinishTicks(env, Tell(m.(channels := m.channels - {key}), h.driver), h);
    }
    InterfereKeepsChannels(env, StartChannel(env, StopChannel(env, m, key), c));
  }

  // ----- the status map

  lemma {:induction false} CorrectedKeys(statuses: map<string, Status>, snapshot: seq<Config>)
    ensures Correct(statuses, snapshot).Keys == statuses.Keys + SnapshotKeys(snapshot)
  {
    if snapshot != [] {
      var init, last := snapshot[..|snapshot| - 1], snapshot[|snapshot| - 1];
      CorrectedKeys(statuses, init);
      assert snapshot == init + [last];
      SnapshotKeysSnoc(init, last);
    }
  }

  lemma SnapshotKeysSnoc(init: seq<Config>, last: Config)
    ensures SnapshotKeys(init + [last]) == SnapshotKeys(init) + {Key(last)}
  {
    var all := init + [last];
    assert last in all && forall c :: c in init ==> c in all;
    forall k | k in SnapshotKeys(init) + {Key(last)} ensures k in SnapshotKeys(all) {
      if k in SnapshotKeys(init) {
        var c :| c in init && Key(c) == k;
        assert c in all;
      }
    }
  }

  /** Right after a sync, and before any thread runs, the status map lists exactly the snapshot. */
  lemma {:induction false} SyncStatusKeys(env: Env, m: Manager, snapshot: seq<Config>)
    requires Enumerates(env.order)
    ensures Sync(env, m, snapshot).statuses.Keys == SnapshotKeys(snapshot)
  {
    hide StopAll, StartAll, MakePlan, Interfere, Correct;
    PlanIsStartable(env, m, snapshot);
    var p := PlanFor(env, m, snapshot);
    var started := StartAll(env, AfterStops(env, m, p), p.start + p.restart, DesiredEnabled(snapshot));
    var r, keys := Interfere(env, started), SnapshotKeys(snapshot);
    CorrectedKeys(map k | k in r.statuses && k in keys :: r.statuses[k], snapshot);
  }

  /** Told to shut down, and not successfully joined. */
  predicate IsLoose(d: Driver) { d.told && !d.joined }

  predicate LooseKey(drivers: seq<Driver>, key: string) {
    exists d :: 0 <= d < |drivers| && IsLoose(drivers[d]) && Key(drivers[d].config) == key
  }

  /** The status map holds keys of `keys` and of loose drivers only, and so does every running thread. */
  predicate Safe(m: Manager, keys: set<string>) {
    && (forall k :: k in m.statuses ==> k in keys || LooseKey(m.drivers, k))
    && (forall d :: 0 <= d < |m.drivers| && !m.drivers[d].ended ==>
          Key(m.drivers[d].config) in keys || IsLoose(m.drivers[d]))
  }

  predicate SameConfigs(before: seq<Driver>, after: seq<Driver>) {
    |before| == |after| && forall d :: 0 <= d < |before| ==> after[d].config == before[d].config
  }

  /** Changing threads keeps loose keys loose, or finds them in `keys`. */
  lemma LooseSurvives(before: seq<Driver>, after: seq<Driver>, keys: set<string>)
    requires SameConfigs(before, after)
    requires forall d :: 0 <= d < |before| && IsLoose(before[d]) ==> IsLoose(after[d]) || Key(before[d].config) in keys
    ensures forall k :: LooseKey(before, k) ==> k in keys || LooseKey(after, k)
  {
    forall k | LooseKey(before, k) ensures k in keys || LooseKey(after, k) {
      var d :| 0 <= d < |before| && IsLoose(before[d]) && Key(before[d].config) == k;
      assert IsLoose(after[d]) ==> LooseKey(after, k);
    }
  }

  lemma ReactSafe(m: Manager, e: DriverEvent, keys: set<string>)
    requires Safe(m, keys)
    ensures Safe(React(m, e), keys) && SameConfigs(m.drivers, React(m, e).drivers)
  {
    hide Key, StatusOf;
    var r := React(m, e);
    LooseSurvives(m.drivers, r.drivers, keys);
    if e.driver < |m.drivers| && !m.drivers[e.driver].ended {
      var d := m.drivers[e.driver];
      assert r.statuses.Keys <= m.statuses.Keys + {Key(d.config)};
      assert IsLoose(d) ==> LooseKey(m.drivers, Key(d.config));
    }
  }

  lemma {:induction false} ReactAllSafe(m: Manager, es: seq<DriverEvent>, keys: set<string>)
    requires Safe(m, keys)
    ensures Safe(ReactAll(m, es), keys) && SameConfigs(m.drivers, ReactAll(m, es).drivers)
  {
    hide Safe, React;
    if es != [] {
      ReactAllSafe(m, es[..|es| - 1], keys);
      ReactSafe(ReactAll(m, es[..|es| - 1]), es[|es| - 1], keys);
    }
  }

  lemma InterfereSafe(env: Env, m: Manager, keys: set<string>)
    requires Safe(m, keys)
    ensures Safe(Interfere(env, m), keys) && SameConfigs(m.drivers, Interfere(env, m).drivers)
  {
    hide ReactAll;
    ReactAllSafe(m, env.between(m.clock), keys);
  }

  lemma PutSafe(env: Env, m: Manager, c: Config, state: Lifecycle, lastError: Option<string>, keys: set<string>)
    requires Safe(m, keys) && Key(c) in keys
    ensures Safe(Put(env, m, c, state, lastError), keys) && SameConfigs(m.drivers, Put(env, m, c, state, lastError).drivers)
  {
    hide Interfere, LooseKey, Key;
    InterfereSafe(env, m, keys);
  }

  lemma JoinSafe(m: Manager, d: nat, keys: set<string>)
    requires Safe(m, keys) && d < |m.drivers| && m.drivers[d].ended && Key(m.drivers[d].config) in keys
    ensures Safe(m.(drivers := m.drivers[d := m.drivers[d].(joined := true)]), keys)
  {
    hide Key;
    LooseSurvives(m.drivers, m.drivers[d := m.drivers[d].(joined := true)], keys);
  }

  lemma TellSafe(m: Manager, d: nat, keys: set<string>)
    requires Safe(m, keys)
    ensures Safe(Tell(m, d), keys) && SameConfigs(m.drivers, Tell(m, d).drivers)
  {
    hide Key;
    LooseSurvives(m.drivers, Tell(m, d).drivers, keys);
  }

  /** The handle belongs to the driver with its config, whose key is one of `keys`. */
  predicate Known(drivers: seq<Driver>, h: Handle, keys: set<string>) {
    h.driver < |drivers| && drivers[h.driver].config == h.config && Key(h.config) in keys
  }

  lemma FinishSafe(env: Env, m: Manager, h: Handle, keys: set<string>)
    requires Safe(m, keys) && Known(m.drivers, h, keys)
    ensures Safe(FinishStop(env, m, h), keys) && SameConfigs(m.drivers, FinishStop(env, m, h).drivers)
  {
    hide Put, Interfere, Safe;
    var waited := Interfere(env, m);
    InterfereSafe(env, m, keys);
    PutSafe(env, waited, h.config, Failed, Some("timed out waiting channel shutdown"), keys);
    if waited.drivers[h.driver].ended {
      JoinSafe(waited, h.driver, keys);
      var joined := waited.(drivers := waited.drivers[h.driver := waited.drivers[h.driver].(joined := true)]);
      PutSafe(env, joined, h.config, Stopped, None, keys);
    }
  }

  predicate AllKnown(drivers: seq<Driver>, handles: map<string, Handle>, keys: set<string>) {
    forall k :: k in handles ==> Known(drivers, handles[k], keys)
  }

  lemma {:induction false} PollAllSafe(
    env: Env, m: Manager, todo: seq<string>, handles: map<string, Handle>, keys: set<string>)
    requires Safe(m, keys) && AllKnown(m.drivers, handles, keys)
    ensures
      var r := PollAll(env, m, todo, handles).0;
      Safe(r, keys) && SameConfigs(m.drivers, r.drivers)
    decreases |todo|
  {
    hide Safe, FinishStop, Tell;
    if todo != [] {
      var init, key := todo[..|todo| - 1], todo[|todo| - 1];
      PollAllSafe(env, m, init, handles, keys);
      if key in handles {
        assert Known(m.drivers, handles[key], keys);
        var before := PollAll(env, m, init, handles).0;
        TellSafe(before, handles[key].driver, keys);
        FinishSafe(env, Tell(before, handles[key].driver), handles[key], keys);
      }
    }
  }

  lemma {:induction false} FinishAllSafe(
    env: Env, m: Manager, todo: seq<string>, handles: map<string, Handle>, keys: set<string>)
    requires Safe(m, keys) && AllKnown(m.drivers, handles, keys)
    ensures
      var r := FinishAll(env, m, todo, handles);
      Safe(r, keys) && SameConfigs(m.drivers, r.drivers)
    decreases |todo|
  {
    hide Safe, FinishStop;
    if todo != [] {
      var init, key := todo[..|todo| - 1], todo[|todo| - 1];
      FinishAllSafe(env, m, init, handles, keys);
      if key in handles {
        assert Known(m.drivers, handles[key], keys);
        FinishSafe(env, FinishAll(env, m, init, handles), handles[key], keys);
      }
    }
  }

  lemma ShutdownSafe(env: Env, m: Manager, finished: nat, keys: set<string>)
    requires Inv(m) && Safe(m, keys) && m.channels.Keys <= keys && Enumerates(env.order)
    ensures Safe(Shutdown(env, m, finished), keys)
  {
    hide FinishAll, PollAll, LooseKey;
    var handles, taken := m.channels, m.(channels := map[]);
    forall k | k in handles ensures Known(m.drivers, handles[k], keys) {
      assert Holds(m.drivers, k, handles[k]);
    }
    PollAllSafe(env, taken, env.order(handles.Keys), handles, keys);
    var (polled, waiting) := PollAll(env, taken, env.order(handles.Keys), handles);
    var order := env.order(Elements(waiting));
    FinishAllSafe(env, polled, order[..Min(finished, |order|)], handles, keys);
  }

  lemma SyncSafe(env: Env, m: Manager, snapshot: seq<Config>)
    requires Inv(m) && Enumerates(env.order)
    ensures Safe(Sync(env, m, snapshot), SnapshotKeys(snapshot))
    ensures Sync(env, m, snapshot).channels.Keys <= SnapshotKeys(snapshot)
  {
    hide Sync, SyncFailures, LooseKey;
    SyncKeepsInv(env, m, snapshot);
    SyncStatusKeys(env, m, snapshot);
    SyncChannels(env, m, snapshot);
    var r, desired := Sync(env, m, snapshot), DesiredEnabled(snapshot);
    forall k | k in r.channels ensures k in SnapshotKeys(snapshot) {
      assert k in Configs(r.channels) && desired[k] in snapshot;
    }
    forall d | 0 <= d < |r.drivers| && !r.drivers[d].ended
      ensures Key(r.drivers[d].config) in SnapshotKeys(snapshot) || IsLoose(r.drivers[d])
    {}
  }

  /** No sync and no restart: shutdowns, finished or not, and threads running. */
  predicate BetweenSyncs(ops: seq<Op>) {
    forall i :: 0 <= i < |ops| ==> ops[i].ShutdownOp? || ops[i].DriverSteps?
  }

  lemma {:induction false} BetweenSyncsSafe(m: Manager, ops: seq<Op>, keys: set<string>)
    requires Inv(m) && Safe(m, keys) && m.channels.Keys <= keys && Sensible(ops) && BetweenSyncs(ops)
    ensures Inv(RunOps(m, ops)) && Safe(RunOps(m, ops), keys) && RunOps(m, ops).channels.Keys <= keys
    decreases |ops|
  {
    hide Inv, Safe, Shutdown, ReactAll, Enumerates;
    if ops != [] {
      var before, op := ops[..|ops| - 1], ops[|ops| - 1];
      assert forall i :: 0 <= i < |before| ==> before[i] == ops[i];
      BetweenSyncsSafe(m, before, keys);
      var s := RunOps(m, before);
      OpKeepsInv(s, op);
      if op.ShutdownOp? {
        ShutdownSafe(op.env, s, op.finished, keys);
        ShutdownKeepsInv(op.env, s, op.finished);
      } else {
        ReactAllSafe(s, op.events, keys);
        ReactAllKeepsChannels(s, op.events);
      }
    }
  }

  /** Status-map safety: whatever happened before, and however threads and shutdowns interleave after a
      sync, until the next one the status map holds only keys of that snapshot and keys of drivers
      whose shutdown join did not succeed. */
  lemma {:induction false} StatusMapSafety(ops: seq<Op>, env: Env, snapshot: seq<Config>, rest: seq<Op>, key: string)
    requires Sensible(ops) && Enumerates(env.order) && Sensible(rest) && BetweenSyncs(rest)
    requires key in RunOps(Sync(env, RunOps(FRESH, ops), snapshot), rest).statuses
    ensures
      var m := RunOps(Sync(env, RunOps(FRESH, ops), snapshot), rest);
      key in SnapshotKeys(snapshot)
      || exists d :: 0 <= d < |m.drivers| && m.drivers[d].told && !m.drivers[d].joined && Key(m.drivers[d].config) == key
  {
    hide Sync, RunOps, Inv, Enumerates, Sensible;
    FreshIsTracked();
    RunKeepsInv(FRESH, ops);
    var m := RunOps(FRESH, ops);
    SyncKeepsInv(env, m, snapshot);
    SyncSafe(env, m, snapshot);
    BetweenSyncsSafe(Sync(env, m, snapshot), rest, SnapshotKeys(snapshot));
    var r := RunOps(Sync(env, m, snapshot), rest);
    if key !in SnapshotKeys(snapshot) {
      var d :| 0 <= d < |r.drivers| && IsLoose(r.drivers[d]) && Key(r.drivers[d].config) == key;
    }
  }

  // ----- status records are coherent

  /** The state of a status and its error and retry fields tell one story. */
  predicate Coherent(s: Status) {
    match s.state
    case Running => s.lastError.None? && s.reconnectAttempt == 0
    case Starting => s.lastError.None?
    case Stopped => s.lastError.None?
    case Degraded => s.lastError.Some?
    case Reconnecting => s.lastError.Some?
    case Failed => s.lastError.Some?
  }

  predicate AllCoherent(statuses: map<string, Status>) { forall k :: k in statuses ==> Coherent(statuses[k]) }

  lemma ReactCoherent(m: Manager, e: DriverEvent)
    requires AllCoherent(m.statuses)
    ensures AllCoherent(React(m, e).statuses)
  {
    hide Key;
  }

  lemma {:induction false} ReactAllCoherent(m: Manager, es: seq<DriverEvent>)
    requires AllCoherent(m.statuses)
    ensures AllCoherent(ReactAll(m, es).statuses)
  {
    hide React, AllCoherent;
    if es != [] {
      ReactAllCoherent(m, es[..|es| - 1]);
      ReactCoherent(ReactAll(m, es[..|es| - 1]), es[|es| - 1]);
    }
  }

  lemma InterfereCoherent(env: Env, m: Manager)
    requires AllCoherent(m.statuses)
    ensures AllCoherent(Interfere(env, m).statuses)
  {
    hide ReactAll, AllCoherent;
    ReactAllCoherent(m, env.between(m.clock));
  }

  lemma PutCoherent(env: Env, m: Manager, c: Config, state: Lifecycle, lastError: Option<string>)
    requires AllCoherent(m.statuses) && Coherent(StatusOf(c, state, lastError))
    ensures AllCoherent(Put(env, m, c, state, lastError).statuses)
  {
    hide Interfere, Coherent;
    InterfereCoherent(env, m);
  }

  lemma StartCoherent(env: Env, m: Manager, c: Config)
    requires AllCoherent(m.statuses) && Key(c) !in m.channels
    ensures AllCoherent(StartChannel(env, m, c).statuses)
  {
    hide Put, Interfere, Key;
    var starting := Put(env, m, c, Starting, None);
    PutCoherent(env, m, c, Starting, None);
    var buildError := env.buildError(starting.clock);
    if buildError.Some? {
      PutCoherent(env, starting, c, Failed, buildError);
    } else {
      var put := Put(env, starting, c, Running, None);
      PutCoherent(env, starting, c, Running, None);
      InterfereCoherent(env, put);
      var running := Interfere(env, put);
      var marked := running.(statuses := Apply(running.statuses, c, MarkRunning("channel task started")));
      assert AllCoherent(marked.statuses);
      if env.spawnError(marked.clock).Some? {
        PutCoherent(env, marked, c, Failed, env.spawnError(marked.clock));
      } else {
        InterfereCoherent(env, Spawn(marked, c));
      }
    }
  }

  lemma FinishCoherent(env: Env, m: Manager, h: Handle)
    requires AllCoherent(m.statuses)
    ensures AllCoherent(FinishStop(env, m, h).statuses)
  {
    hide Put, Interfere, AllCoherent;
    var waited := Interfere(env, m);
    InterfereCoherent(env, m);
    PutCoherent(env, waited, h.config, Failed, Some("timed out waiting channel shutdown"));
    if h.driver < |waited.drivers| {
      PutCoherent(env, waited.(drivers := waited.drivers[h.driver := waited.drivers[h.driver].(joined := true)]),
                  h.config, Stopped, None);
    }
  }

  lemma StopCoherent(env: Env, m: Manager, key: string)
    requires AllCoherent(m.statuses)
    ensures AllCoherent(StopChannel(env, m, key).statuses)
  {
    hide FinishStop, AllCoherent;
    if key in m.channels {
      var h := m.channels[key];
      FinishCoherent(env, Tell(m.(channels := m.channels - {key}), h.driver), h);
    }
  }

  lemma {:induction false} StopAllCoherent(env: Env, m: Manager, keys: seq<string>)
    requires AllCoherent(m.statuses)
    ensures AllCoherent(StopAll(env, m, keys).statuses)
  {
    hide StopChannel, AllCoherent;
    if keys != [] {
      StopAllCoherent(env, m, keys[..|keys| - 1]);
      StopCoherent(env, StopAll(env, m, keys[..|keys| - 1]), keys[|keys| - 1]);
    }
  }

  lemma {:induction false} StartAllCoherent(env: Env, m: Manager, keys: seq<string>, desired: map<string, Config>)
    requires AllCoherent(m.statuses) && Startable(m, keys, desired)
    ensures AllCoherent(StartAll(env, m, keys, desired).statuses)
    decreases |keys|
  {
    hide StartChannel, AllCoherent, Startable, Elements;
    if keys != [] {
      var init, last := keys[..|keys| - 1], keys[|keys| - 1];
      StartableLast(m, keys, desired);
      StartAllCoherent(env, m, init, desired);
      StartCoherent(env, StartAll(env, m, init, desired), desired[last]);
    }
  }

  lemma {:induction false} CorrectCoherent(statuses: map<string, Status>, snapshot: seq<Config>)
    requires AllCoherent(statuses)
    ensures AllCoherent(Correct(statuses, snapshot))
  {
    hide Key;
    if snapshot != [] {
      CorrectCoherent(statuses, snapshot[..|snapshot| - 1]);
    }
  }

  lemma ReconcileCoherent(env: Env, m: Manager, snapshot: seq<Config>)
    requires AllCoherent(m.statuses)
    ensures AllCoherent(Reconcile(env, m, snapshot).statuses)
  {
    hide Interfere, Coherent, Correct;
    InterfereCoherent(env, m);
    var r, keys := Interfere(env, m), SnapshotKeys(snapshot);
    CorrectCoherent(map k | k in r.statuses && k in keys :: r.statuses[k], snapshot);
  }

  lemma SyncCoherent(env: Env, m: Manager, snapshot: seq<Config>)
    requires AllCoherent(m.statuses) && Enumerates(env.order)
    ensures AllCoherent(Sync(env, m, snapshot).statuses)
  {
    hide AllCoherent, StopAll, StartAll, Reconcile, PlanFor, Startable;
    PlanIsStartable(env, m, snapshot);
    var p, desired := PlanFor(env, m, snapshot), DesiredEnabled(snapshot);
    StopAllCoherent(env, m, p.stop);
    StopAllCoherent(env, StopAll(env, m, p.stop), p.restart);
    var stopped := AfterStops(env, m, p);
    StartAllCoherent(env, stopped, p.start + p.restart, desired);
    ReconcileCoherent(env, StartAll(env, stopped, p.start + p.restart, desired), snapshot);
  }

  lemma RestartCoherent(env: Env, m: Manager, key: string, snapshot: seq<Config>)
    requires AllCoherent(m.statuses) && RestartChannel(env, m, key, snapshot).Success?
    ensures AllCoherent(RestartChannel(env, m, key, snapshot).value.statuses)
  {
    hide AllCoherent, StopChannel, StartChannel, Reconcile;
    var c := FindConfig(snapshot, key).value;
    StopCoherent(env, m, key);
    StopKeepsChannels(env, m, key);
    StartCoherent(env, StopChannel(env, m, key), c);
    ReconcileCoherent(env, StartChannel(env, StopChannel(env, m, key), c), snapshot);
  }

  lemma {:induction false} PollAllCoherent(env: Env, m: Manager, keys: seq<string>, handles: map<string, Handle>)
    requires AllCoherent(m.statuses)
    ensures AllCoherent(PollAll(env, m, keys, handles).0.statuses)
  {
    hide FinishStop, AllCoherent;
    if keys != [] {
      var init, key := keys[..|keys| - 1], keys[|keys| - 1];
      PollAllCoherent(env, m, init, handles);
      if key in handles {
        FinishCoherent(env, Tell(PollAll(env, m, init, handles).0, handles[key].driver), handles[key]);
      }
    }
  }

  lemma {:induction false} FinishAllCoherent(env: Env, m: Manager, keys: seq<string>, handles: map<string, Handle>)
    requires AllCoherent(m.statuses)
    ensures AllCoherent(FinishAll(env, m, keys, handles).statuses)
  {
    hide FinishStop, AllCoherent;
    if keys != [] {
      var init, key := keys[..|keys| - 1], keys[|keys| - 1];
      FinishAllCoherent(env, m, init, handles);
      if key in handles {
        FinishCoherent(env, FinishAll(env, m, init, handles), handles[key]);
      }
    }
  }

  lemma ShutdownCoherent(env: Env, m: Manager, finished: nat)
    requires AllCoherent(m.statuses)
    ensures AllCoherent(Shutdown(env, m, finished).statuses)
  {
    hide PollAll, FinishAll, AllCoherent;
    var taken, keys := m.(channels := map[]), env.order(m.channels.Keys);
    PollAllCoherent(env, taken, keys, m.channels);
    var (polled, waiting) := PollAll(env, taken, keys, m.channels);
    var order := env.order(Elements(waiting));
    FinishAllCoherent(env, polled, order[..Min(finished, |order|)], m.channels);
  }

  /** In every state of every run, however the threads interleave: a running channel shows no error and
      no pending reconnect, a stopped or starting one shows no error, and a degraded, reconnecting or
      failed one always names its error. */
  lemma {:induction false} StatusesAreCoherent(ops: seq<Op>)
    requires Sensible(ops)
    ensures AllCoherent(RunOps(FRESH, ops).statuses)
    decreases |ops|
  {
    hide Coherent, Sync, Shutdown, RestartChannel, ReactAll, Enumerates;
    if ops != [] {
      var before, op := ops[..|ops| - 1], ops[|ops| - 1];
      assert forall i :: 0 <= i < |before| ==> before[i] == ops[i];
      StatusesAreCoherent(before);
      var m := RunOps(FRESH, before);
      match op
      case SyncOp(env, snapshot) => SyncCoherent(env, m, snapshot);
      case RestartOp(env, key, snapshot) =>
        if RestartChannel(env, m, key, snapshot).Success? {
          RestartCoherent(env, m, key, snapshot);
        }
      case ShutdownOp(env, finished) => ShutdownCoherent(env, m, finished);
      case DriverSteps(events) => ReactAllCoherent(m, events);
    }
  }

  /** After a sync with a duplicate-free snapshot every instance shows its own config, and a disabled
      one is stopped without error or pending reconnect. */
  lemma {:induction false} SyncedStatus(env: Env, m: Manager, snapshot: seq<Config>, i: nat)
    requires Enumerates(env.order) && i < |snapshot|
    requires forall a, b :: 0 <= a < b < |snapshot| ==> Key(snapshot[a]) != Key(snapshot[b])
    ensures
      var c, statuses := snapshot[i], Sync(env, m, snapshot).statuses;
      Key(c) in statuses && ShowsConfig(statuses[Key(c)], c)
  {
    hide StopAll, StartAll, MakePlan, Interfere, Correct, ShowsConfig, Key;
    PlanIsStartable(env, m, snapshot);
    var p := PlanFor(env, m, snapshot);
    var started := StartAll(env, AfterStops(env, m, p), p.start + p.restart, DesiredEnabled(snapshot));
    var r, keys := Interfere(env, started), SnapshotKeys(snapshot);
    CorrectedStatus(map k | k in r.statuses && k in keys :: r.statuses[k], snapshot, i);
  }

  predicate ShowsConfig(s: Status, c: Config) {
    && s.kind == c.kind && s.id == c.id && s.enabled == c.enabled
    && (!c.enabled ==> s.state == Stopped && s.lastError.None? && s.reconnectAttempt == 0)
  }

  lemma {:induction false} CorrectedStatus(statuses: map<string, Status>, snapshot: seq<Config>, i: nat)
    requires i < |snapshot| && forall a, b :: 0 <= a < b < |snapshot| ==> Key(snapshot[a]) != Key(snapshot[b])
    ensures
      var c, corrected := snapshot[i], Correct(statuses, snapshot);
      Key(c) in corrected && ShowsConfig(corrected[Key(c)], c)
    decreases |snapshot|
  {
    hide Key;
    if i < |snapshot| - 1 {
      CorrectedStatus(statuses, snapshot[..|snapshot| - 1], i);
    }
  }
}
