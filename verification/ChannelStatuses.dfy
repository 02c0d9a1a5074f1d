/** What the status map shows: after a start, a stop, a sync, a shutdown, and after driver threads report. */
module ChannelStatuses {
  import opened Wrappers
  import opened Text
  import opened Planning
  import opened Channels
  import opened ChannelsTheorems

  /** Instances share a key exactly when they are of one kind and their trimmed ids are equal. */
  lemma {:induction false} KeyIsInjective(c: Config, c': Config)
    ensures Key(c) == Key(c') <==> c.kind == c'.kind && Trim(c.id) == Trim(c'.id)
  {
    hide Trim;
    var n, n' := |KindName(c.kind)| + 1, |KindName(c'.kind)| + 1;
    assert Key(c)[0] == KindName(c.kind)[0] && Key(c')[0] == KindName(c'.kind)[0];
    assert Key(c)[n..] == Trim(c.id) && Key(c')[n'..] == Trim(c'.id);
  }

  // ----- one start, one stop

  /** No thread runs while the manager does. */
  ghost predicate Silent(env: Env) { forall t: nat :: env.between(t) == [] }

  lemma SilentTick(env: Env, m: Manager)
    requires Silent(env)
    ensures Interfere(env, m) == m.(clock := m.clock + 1)
  {}

  lemma SilentPut(env: Env, m: Manager, c: Config, state: Lifecycle, lastError: Option<string>)
    requires Silent(env)
    ensures Put(env, m, c, state, lastError)
         == m.(clock := m.clock + 1, statuses := m.statuses[Key(c) := StatusOf(c, state, lastError)])
  {
    hide Interfere, Silent;
    SilentTick(env, m);
  }

  /** Why a start at this time is refused. */
  function Refusal(env: Env, clock: nat): Option<string> {
    if env.buildError(clock + 1).Some? then env.buildError(clock + 1) else env.spawnError(clock + 3)
  }

  /** The status of a channel whose start began at this time. */
  function StartedStatus(env: Env, clock: nat, c: Config): Status {
    if Refusal(env, clock).Some?
    then Status(c.kind, c.id, c.enabled, Failed, Refusal(env, clock), 0, None)
    else Status(c.kind, c.id, c.enabled, Running, None, 0, Some("channel task started"))
  }

  /** A refused start leaves the channel failed with the error that refused it, whatever the threads do. */
  lemma {:induction false} RefusedStartsShowTheirError(env: Env, m: Manager, c: Config)
    requires Key(c) !in m.channels && Refusal(env, m.clock).Some?
    ensures
      var s := StartChannel(env, m, c).statuses;
      Key(c) in s && s[Key(c)] == Status(c.kind, c.id, c.enabled, Failed, Refusal(env, m.clock), 0, None)
  {
    hide Interfere, Apply, Key;
    AnnounceTicks(env, m, c);
    var starting := Put(env, m, c, Starting, None);
    InterfereTicks(env, m);
    var put := Put(env, starting, c, Running, None);
    InterfereTicks(env, starting);
    InterfereTicks(env, put);
  }

  /** With silent threads a start writes the status of its own key, and that status is exact. */
  lemma {:induction false} StartsShow(env: Env, m: Manager, c: Config)
    requires Key(c) !in m.channels && Silent(env)
    ensures StartChannel(env, m, c).statuses == m.statuses[Key(c) := StartedStatus(env, m.clock, c)]
  {
    hide Silent, Put, Interfere, Key;
    var starting := Put(env, m, c, Starting, None);
    SilentPut(env, m, c, Starting, None);
    SilentPut(env, starting, c, Failed, env.buildError(starting.clock));
    SilentPut(env, starting, c, Running, None);
    var put := Put(env, starting, c, Running, None);
    SilentTick(env, put);
    var running := Interfere(env, put);
    var marked := running.(statuses := Apply(running.statuses, c, MarkRunning("channel task started")));
    SilentPut(env, marked, c, Failed, env.spawnError(marked.clock));
    SilentTick(env, Spawn(marked, c));
  }

  /** The status of a channel after its stop. */
  function StoppedStatus(c: Config, joined: bool): Status {
    if joined then Status(c.kind, c.id, c.enabled, Stopped, None, 0, None)
    else Status(c.kind, c.id, c.enabled, Failed, Some("timed out waiting channel shutdown"), 0, None)
  }

  lemma FinishShows(env: Env, m: Manager, h: Handle)
    requires Inv(m) && h.driver < |m.drivers| && m.drivers[h.driver].told && !m.drivers[h.driver].joined
    ensures
      var r := FinishStop(env, m, h);
      && |r.drivers| == |m.drivers| && Key(h.config) in r.statuses
      && r.statuses[Key(h.config)] == StoppedStatus(h.config, r.drivers[h.driver].joined)
  {
    hide Interfere, Inv, Key;
    var waited := Interfere(env, m);
    InterfereFrame(env, m);
    if waited.drivers[h.driver].ended && env.joins(waited.clock) {
      var joined := waited.(drivers := waited.drivers[h.driver := waited.drivers[h.driver].(joined := true)]);
      InterfereFrame(env, joined);
    } else {
      InterfereFrame(env, waited);
    }
  }

  lemma UntoldIsUnjoined(m: Manager, key: string)
    requires Inv(m) && key in m.channels
    ensures
      var h := m.channels[key];
      h.driver < |m.drivers| && !m.drivers[h.driver].told && !m.drivers[h.driver].joined && Key(h.config) == key
  {
    assert Holds(m.drivers, key, m.channels[key]);
  }

  /** After a stop, whatever the threads did, the channel is stopped exactly if its thread was joined, and
      otherwise failed with the timeout; a joined thread has ended. */
  lemma {:induction false} StopsShow(env: Env, m: Manager, key: string)
    requires Inv(m) && key in m.channels
    ensures
      var h, r := m.channels[key], StopChannel(env, m, key);
      && h.driver < |r.drivers| && key in r.statuses
      && r.statuses[key] == StoppedStatus(h.config, r.drivers[h.driver].joined)
      && (r.drivers[h.driver].joined ==> r.drivers[h.driver].ended)
  {
    hide FinishStop, Tracked;
    var h := m.channels[key];
    UntoldIsUnjoined(m, key);
    TellKeepsTracked(m.channels, m.drivers, key);
    var told := Tell(m.(channels := m.channels - {key}), h.driver);
    FinishShows(env, told, h);
    FinishKeepsInv(env, told, h);
    JoinedHasEnded(FinishStop(env, told, h), h.driver);
  }

  lemma JoinedHasEnded(m: Manager, d: nat)
    requires Inv(m) && d < |m.drivers|
    ensures m.drivers[d].joined ==> m.drivers[d].ended
  {}

  /** With silent threads the join succeeds exactly if the thread had ended and the join is in time. */
  lemma SilentFinish(env: Env, m: Manager, h: Handle)
    requires Silent(env) && h.driver < |m.drivers| && !m.drivers[h.driver].joined
    ensures
      var r, joined := FinishStop(env, m, h), m.drivers[h.driver].ended && env.joins(m.clock + 1);
      && r.statuses == m.statuses[Key(h.config) := StoppedStatus(h.config, joined)]
      && r.drivers == m.drivers[h.driver := m.drivers[h.driver].(joined := joined)]
  {
    hide Silent, Interfere, Put, Key;
    SilentTick(env, m);
    var waited := Interfere(env, m);
    var joined := waited.(drivers := waited.drivers[h.driver := waited.drivers[h.driver].(joined := true)]);
    SilentPut(env, joined, h.config, Stopped, None);
    SilentPut(env, waited, h.config, Failed, Some("timed out waiting channel shutdown"));
    assert m.drivers[h.driver := m.drivers[h.driver].(joined := false)] == m.drivers;
  }

  // ----- a sync

  lemma {:induction false} StartAllShows(env: Env, m: Manager, keys: seq<string>, desired: map<string, Config>)
    requires Startable(m, keys, desired) && Silent(env)
    ensures
      var s := StartAll(env, m, keys, desired).statuses;
      && (forall k :: k !in keys ==> (k in s <==> k in m.statuses) && (k in s ==> s[k] == m.statuses[k]))
      && (forall i :: 0 <= i < |keys| ==>
            keys[i] in s && s[keys[i]] == StartedStatus(env, StartTime(env, m.clock, i), desired[keys[i]]))
    decreases |keys|
  {
    hide StartChannel, Silent, Startable, Elements, StartedStatus, StartTime;
    if keys != [] {
      var init, last := keys[..|keys| - 1], keys[|keys| - 1];
      StartableLast(m, keys, desired);
      StartAllShows(env, m, init, desired);
      StartAllStarts(env, m, init, desired);
      StartsShow(env, StartAll(env, m, init, desired), desired[last]);
      forall i | 0 <= i < |keys| - 1 ensures keys[i] == init[i] && keys[i] != last && keys[i] in init {}
      assert forall k :: k !in keys ==> k !in init && k != last;
    }
  }

  predicate AllEnabled(snapshot: seq<Config>, key: string) {
    forall i :: 0 <= i < |snapshot| && Key(snapshot[i]) == key ==> snapshot[i].enabled
  }

  function Relabelled(s: Status, c: Config): Status { s.(kind := c.kind, id := c.id, enabled := c.enabled) }

  /** Correcting the status of an enabled instance only relabels it. */
  lemma {:induction false} CorrectRelabels(statuses: map<string, Status>, snapshot: seq<Config>, key: string)
    requires key in statuses && AllEnabled(snapshot, key)
    ensures
      var s, desired := Correct(statuses, snapshot), DesiredEnabled(snapshot);
      && key in s && s[key] == if key in desired then Relabelled(statuses[key], desired[key]) else statuses[key]
  {
    hide Key;
    if snapshot != [] {
      var init, last := snapshot[..|snapshot| - 1], snapshot[|snapshot| - 1];
      assert forall i :: 0 <= i < |init| ==> init[i] == snapshot[i];
      CorrectRelabels(statuses, init, key);
      DesiredSnoc(snapshot);
    }
  }

  lemma DesiredSnoc(snapshot: seq<Config>)
    requires snapshot != []
    ensures
      var rest, last := DesiredEnabled(snapshot[..|snapshot| - 1]), snapshot[|snapshot| - 1];
      DesiredEnabled(snapshot) == if last.enabled then rest[Key(last) := last] else rest
  {
    hide Key;
  }

  lemma ReconcileRelabels(env: Env, m: Manager, snapshot: seq<Config>, key: string)
    requires Silent(env) && key in m.statuses && key in DesiredEnabled(snapshot) && AllEnabled(snapshot, key)
    ensures
      var s := Reconcile(env, m, snapshot).statuses;
      key in s && s[key] == Relabelled(m.statuses[key], DesiredEnabled(snapshot)[key])
  {
    hide Silent, Interfere, Correct, Key, DesiredEnabled;
    SilentTick(env, m);
    var keys := SnapshotKeys(snapshot);
    assert key in keys by {
      var c := DesiredEnabled(snapshot)[key];
      assert c in snapshot && Key(c) == key;
    }
    CorrectRelabels(map k | k in m.statuses && k in keys :: m.statuses[k], snapshot, key);
  }

  /** After a sync with silent threads every key that it started or restarted shows how that went: running,
      or failed with the very error that refused its start. */
  lemma {:induction false} SyncShowsItsStarts(env: Env, m: Manager, snapshot: seq<Config>, i: nat)
    requires Enumerates(env.order) && Silent(env)
    requires
      var p := PlanFor(env, m, snapshot);
      i < |p.start + p.restart| && AllEnabled(snapshot, (p.start + p.restart)[i])
    ensures
      var p, s, desired := PlanFor(env, m, snapshot), Sync(env, m, snapshot).statuses, DesiredEnabled(snapshot);
      var key := (p.start + p.restart)[i];
      var time := StartTime(env, m.clock + 2 * (|p.stop| + |p.restart|), i);
      key in desired && key in s && s[key] == StartedStatus(env, time, desired[key])
  {
    hide Silent, Enumerates, PlanFor, AfterStops, StartAll, Reconcile, DesiredEnabled, StartTime, AllEnabled, Refusal;
    hide Startable;
    var p, desired := PlanFor(env, m, snapshot), DesiredEnabled(snapshot);
    var stopped, keys := AfterStops(env, m, p), p.start + p.restart;
    PlanIsStartable(env, m, snapshot);
    AfterStopsTicks(env, m, snapshot);
    StartAllShows(env, stopped, keys, desired);
    IsStartable(stopped, keys, desired, i);
    var started := StartAll(env, stopped, keys, desired);
    ReconcileRelabels(env, started, snapshot, keys[i]);
  }

  lemma IsStartable(m: Manager, keys: seq<string>, desired: map<string, Config>, i: nat)
    requires Startable(m, keys, desired) && i < |keys|
    ensures keys[i] in desired && Key(desired[keys[i]]) == keys[i]
  {}

  /** With silent threads a sync leaves the status of a key that it keeps as it was, but for its labels. */
  lemma {:induction false} SyncKeepsStatuses(env: Env, m: Manager, snapshot: seq<Config>, key: string)
    requires Enumerates(env.order) && Silent(env) && key in m.statuses && AllEnabled(snapshot, key)
    requires Inv(m) && key in PlanFor(env, m, snapshot).keep
    ensures
      var s, desired := Sync(env, m, snapshot).statuses, DesiredEnabled(snapshot);
      key in desired && key in s && s[key] == Relabelled(m.statuses[key], desired[key])
  {
    hide Silent, Enumerates, AfterStops, StartAll, Reconcile, DesiredEnabled, AllEnabled, Startable, MakePlan, Inv, StopAll;
    hide Elements, NoDuplicates, Relabelled;
    var p, desired := PlanFor(env, m, snapshot), DesiredEnabled(snapshot);
    var stopped, keys := AfterStops(env, m, p), p.start + p.restart;
    PlanMeaning(env.order, Configs(m.channels), desired);
    StartsMeaning(env.order, Configs(m.channels), desired);
    InElements(p.keep, key);
    PlanIsStartable(env, m, snapshot);
    AfterStopsKeep(env, m, p, key);
    StartAllShows(env, stopped, keys, desired);
    ReconcileRelabels(env, StartAll(env, stopped, keys, desired), snapshot, key);
  }

  lemma InElements(s: seq<string>, k: string)
    ensures k in Elements(s) <==> k in s
  {}

  lemma AfterStopsKeep(env: Env, m: Manager, p: Plan, key: string)
    requires Silent(env) && Inv(m) && key in m.statuses && key !in Elements(p.stop) && key !in Elements(p.restart)
    ensures
      var s := AfterStops(env, m, p).statuses;
      key in s && s[key] == m.statuses[key]
  {
    hide Silent, Inv, StopAll, Elements;
    InElements(p.stop, key);
    InElements(p.restart, key);
    StopAllKeepsStatus(env, m, p.stop, key);
    StopAllKeepsInv(env, m, p.stop);
    StopAllKeepsStatus(env, StopAll(env, m, p.stop), p.restart, key);
  }

  lemma {:induction false} StopAllKeepsStatus(env: Env, m: Manager, keys: seq<string>, key: string)
    requires Silent(env) && Inv(m) && key in m.statuses && key !in keys
    ensures
      var s := StopAll(env, m, keys).statuses;
      key in s && s[key] == m.statuses[key]
    decreases |keys|
  {
    hide Silent, Inv, FinishStop;
    if keys != [] {
      var init, last := keys[..|keys| - 1], keys[|keys| - 1];
      assert key != last && key !in init;
      StopAllKeepsStatus(env, m, init, key);
      StopAllKeepsInv(env, m, init);
      var before := StopAll(env, m, init);
      if last in before.channels {
        UntoldIsUnjoined(before, last);
        var h := before.channels[last];
        SilentFinish(env, Tell(before.(channels := before.channels - {last}), h.driver), h);
      }
    }
  }

  /** A restart goes ahead exactly when the first config with this key is enabled. */
  lemma {:induction false} RestartNeedsEnabled(env: Env, m: Manager, key: string, snapshot: seq<Config>)
    ensures RestartChannel(env, m, key, snapshot).Success?
        <==> exists i :: IsFirst(snapshot, key, i) && snapshot[i].enabled
  {
    hide StopChannel, StartChannel, Reconcile, FindConfig, Key;
    FoundIsFirst(snapshot, key);
    StopKeepsChannels(env, m, key);
    if i :| IsFirst(snapshot, key, i) {
      assert FindConfig(snapshot, key) == Some(snapshot[i]);
    }
  }

  /** With silent threads the status of a restarted channel shows how its start went. */
  lemma {:induction false} RestartShows(env: Env, m: Manager, key: string, snapshot: seq<Config>)
    requires RestartChannel(env, m, key, snapshot).Success? && Silent(env) && AllEnabled(snapshot, key)
    ensures
      var s, c := RestartChannel(env, m, key, snapshot).value.statuses, FindConfig(snapshot, key).value;
      var time := m.clock + if key in m.channels then 2 else 0;
      && key in DesiredEnabled(snapshot) && key in s
      && s[key] == Relabelled(StartedStatus(env, time, c), DesiredEnabled(snapshot)[key])
  {
    hide Silent, StopChannel, StartChannel, Reconcile, StartedStatus, Relabelled, AllEnabled, FindConfig, DesiredEnabled, Key;
    var c, stopped := FindConfig(snapshot, key).value, StopChannel(env, m, key);
    StopKeepsChannels(env, m, key);
    StopTicks(env, m, key);
    StartsShow(env, stopped, c);
    FirstIsDesired(snapshot, key);
    ReconcileRelabels(env, StartChannel(env, stopped, c), snapshot, key);
  }

  predicate IsFirst(snapshot: seq<Config>, key: string, i: int) {
    0 <= i < |snapshot| && Key(snapshot[i]) == key && forall j :: 0 <= j < i ==> Key(snapshot[j]) != key
  }

  lemma {:induction false} FoundIsFirst(snapshot: seq<Config>, key: string)
    ensures
      var found := FindConfig(snapshot, key);
      && (found.Some? <==> exists i :: IsFirst(snapshot, key, i))
      && forall i :: IsFirst(snapshot, key, i) ==> found == Some(snapshot[i])
  {
    hide Key;
    if snapshot != [] {
      if Key(snapshot[0]) == key {
        assert IsFirst(snapshot, key, 0);
      } else {
        FoundIsFirst(snapshot[1..], key);
        forall i ensures IsFirst(snapshot, key, i) <==> IsFirst(snapshot[1..], key, i - 1) {
          FirstShifts(snapshot, key, i);
        }
        if i :| IsFirst(snapshot[1..], key, i) {
          assert IsFirst(snapshot, key, i + 1) <==> IsFirst(snapshot[1..], key, i + 1 - 1);
        }
      }
    }
  }

  lemma FirstShifts(snapshot: seq<Config>, key: string, i: int)
    requires snapshot != [] && Key(snapshot[0]) != key
    ensures IsFirst(snapshot, key, i) <==> IsFirst(snapshot[1..], key, i - 1)
  {
    hide Key;
    var rest := snapshot[1..];
    assert forall j :: 0 <= j < |rest| ==> rest[j] == snapshot[j + 1];
    if IsFirst(rest, key, i - 1) {
      forall j | 0 <= j < i ensures Key(snapshot[j]) != key {
        if j > 0 {
          assert rest[j - 1] == snapshot[j];
        }
      }
    }
  }

  lemma StopTicks(env: Env, m: Manager, key: string)
    ensures StopChannel(env, m, key).clock == m.clock + if key in m.channels then 2 else 0
  {
    hide FinishStop;
    if key in m.channels {
      var h := m.channels[key];
      FinishTicks(env, Tell(m.(channels := m.channels - {key}), h.driver), h);
    }
  }

  lemma {:induction false} FirstIsDesired(snapshot: seq<Config>, key: string)
    requires FindConfig(snapshot, key).Some? && AllEnabled(snapshot, key)
    ensures key in DesiredEnabled(snapshot)
  {
    hide Key, DesiredEnabled;
    var c := FindConfig(snapshot, key).value;
    var i :| 0 <= i < |snapshot| && snapshot[i] == c;
    EnabledIsDesired(snapshot, i);
  }

  lemma {:induction false} EnabledIsDesired(snapshot: seq<Config>, i: nat)
    requires i < |snapshot| && snapshot[i].enabled
    ensures Key(snapshot[i]) in DesiredEnabled(snapshot)
  {
    hide Key, DesiredEnabled;
    DesiredSnoc(snapshot);
    if i < |snapshot| - 1 {
      assert snapshot[..|snapshot| - 1][i] == snapshot[i];
      EnabledIsDesired(snapshot[..|snapshot| - 1], i);
    }
  }

  // ----- a shutdown

  /** The stops of `keys` are over: each shows how its join went. */
  predicate Settled(m: Manager, handles: map<string, Handle>, keys: set<string>) {
    forall k :: k in keys && k in handles ==>
      && handles[k].driver < |m.drivers| && k in m.statuses
      && m.statuses[k] == StoppedStatus(handles[k].config, m.drivers[handles[k].driver].joined)
  }

  /** The stops of `keys` are still to come. */
  predicate Unsettled(m: Manager, handles: map<string, Handle>, keys: set<string>) {
    forall k :: k in keys && k in handles ==>
      handles[k].driver < |m.drivers| && !m.drivers[handles[k].driver].joined
  }

  predicate Distinct(handles: map<string, Handle>) {
    && (forall k :: k in handles ==> Key(handles[k].config) == k)
    && (forall k, k' :: k in handles && k' in handles && k != k' ==> handles[k].driver != handles[k'].driver)
  }

  lemma TellKeepsSettled(m: Manager, handles: map<string, Handle>, done: set<string>, open: set<string>, d: nat)
    requires Settled(m, handles, done) && Unsettled(m, handles, open)
    ensures Settled(Tell(m, d), handles, done) && Unsettled(Tell(m, d), handles, open)
  {}

  lemma FinishSettles(env: Env, m: Manager, handles: map<string, Handle>, done: set<string>, open: set<string>, key: string)
    requires Silent(env) && Distinct(handles) && key in handles && key in open && key !in done
    requires Settled(m, handles, done) && Unsettled(m, handles, open)
    ensures
      var r := FinishStop(env, m, handles[key]);
      Settled(r, handles, done + {key}) && Unsettled(r, handles, open - {key})
  {
    hide Silent, FinishStop, Key;
    SilentFinish(env, m, handles[key]);
  }

  lemma {:induction false} PollAllSettles(env: Env, m: Manager, keys: seq<string>, handles: map<string, Handle>)
    requires Silent(env) && Distinct(handles) && NoDuplicates(keys) && Elements(keys) <= handles.Keys
    requires Unsettled(m, handles, handles.Keys)
    ensures
      var (r, waiting) := PollAll(env, m, keys, handles);
      && Elements(waiting) <= Elements(keys)
      && Settled(r, handles, Elements(keys) - Elements(waiting))
      && Unsettled(r, handles, (handles.Keys - Elements(keys)) + Elements(waiting))
    decreases |keys|
  {
    hide Silent, FinishStop, Elements, NoDuplicates, Tell, Settled, Unsettled, Distinct;
    var all := handles.Keys;
    if keys == [] {
      NoElements();
      NothingSettled(m, handles);
      var none: seq<string> := [];
      assert keys == none && Elements(keys) - Elements(none) == {};
      assert (all - Elements(keys)) + Elements(none) == all;
    } else {
      var init, key := keys[..|keys| - 1], keys[|keys| - 1];
      assert keys == init + [key];
      ElementsSnoc(init, key);
      NoDuplicatesSnoc(init, key);
      PollAllSettles(env, m, init, handles);
      var (before, waiting) := PollAll(env, m, init, handles);
      var done, open := Elements(init) - Elements(waiting), (all - Elements(init)) + Elements(waiting);
      TellKeepsSettled(before, handles, done, open, handles[key].driver);
      var told := Tell(before, handles[key].driver);
      if env.immediate(told.clock) {
        FinishSettles(env, told, handles, done, open, key);
        assert done + {key} == Elements(keys) - Elements(waiting);
        assert open - {key} == (all - Elements(keys)) + Elements(waiting);
      } else {
        ElementsSnoc(waiting, key);
        assert done == Elements(keys) - Elements(waiting + [key]);
        assert open == (all - Elements(keys)) + Elements(waiting + [key]);
      }
    }
  }

  lemma NothingSettled(m: Manager, handles: map<string, Handle>)
    ensures Settled(m, handles, {})
  {}

  lemma {:induction false} FinishAllSettles(
    env: Env, m: Manager, keys: seq<string>, handles: map<string, Handle>, done: set<string>, open: set<string>)
    requires Silent(env) && Distinct(handles) && NoDuplicates(keys) && Elements(keys) <= handles.Keys
    requires Settled(m, handles, done) && Unsettled(m, handles, open) && Elements(keys) <= open && open !! done
    ensures
      var r := FinishAll(env, m, keys, handles);
      Settled(r, handles, done + Elements(keys)) && Unsettled(r, handles, open - Elements(keys))
    decreases |keys|
  {
    hide Silent, FinishStop, Elements, NoDuplicates, Settled, Unsettled, Distinct;
    if keys == [] {
      NoElements();
      assert done + {} == done && open - {} == open;
    } else {
      var init, key := keys[..|keys| - 1], keys[|keys| - 1];
      assert keys == init + [key];
      ElementsSnoc(init, key);
      NoDuplicatesSnoc(init, key);
      FinishAllSettles(env, m, init, handles, done, open);
      var before := FinishAll(env, m, init, handles);
      FinishSettles(env, before, handles, done + Elements(init), open - Elements(init), key);
      assert done + Elements(init) + {key} == done + Elements(keys);
      assert open - Elements(init) - {key} == open - Elements(keys);
    }
  }

  lemma TrackedIsDistinct(m: Manager)
    requires Inv(m)
    ensures Distinct(m.channels) && Unsettled(m.(channels := map[]), m.channels, m.channels.Keys)
  {
    forall k | k in m.channels
      ensures
        var h := m.channels[k];
        Key(h.config) == k && h.driver < |m.drivers| && !m.drivers[h.driver].joined && m.drivers[h.driver].config == h.config
    {
      assert Holds(m.drivers, k, m.channels[k]);
    }
  }

  /** After a complete shutdown with silent threads every channel that was held is stopped exactly if its
      thread was joined, and failed with the timeout otherwise. */
  lemma {:induction false} ShutdownShows(env: Env, m: Manager, finished: nat, key: string)
    requires Enumerates(env.order) && Silent(env) && Inv(m) && finished >= |m.channels| && key in m.channels
    ensures
      var h, r := m.channels[key], Shutdown(env, m, finished);
      h.driver < |r.drivers| && key in r.statuses && r.statuses[key] == StoppedStatus(h.config, r.drivers[h.driver].joined)
  {
    hide Silent, Inv, Elements, NoDuplicates, PollAll, FinishAll, Unsettled, Distinct, Enumerates, StoppedStatus;
    var handles, taken := m.channels, m.(channels := map[]);
    var keys := env.order(handles.Keys);
    EnumeratesAll(env.order, handles.Keys);
    TrackedIsDistinct(m);
    PollAllSettles(env, taken, keys, handles);
    var (polled, waiting) := PollAll(env, taken, keys, handles);
    var order := env.order(Elements(waiting));
    EnumeratesAll(env.order, Elements(waiting));
    LengthIsSize(order, handles.Keys);
    assert order[..|order|] == order;
    var done, open := handles.Keys - Elements(waiting), Elements(waiting);
    assert (handles.Keys - handles.Keys) + open == open;
    FinishAllSettles(env, polled, order, handles, done, open);
    assert done + open == handles.Keys;
  }

  lemma {:induction false} LengthIsSize(s: seq<string>, keys: set<string>)
    requires NoDuplicates(s) && Elements(s) <= keys
    ensures |s| <= |keys|
  {
    if s != [] {
      var init, last := s[..|s| - 1], s[|s| - 1];
      assert s == init + [last];
      ElementsSnoc(init, last);
      NoDuplicatesSnoc(init, last);
      LengthIsSize(init, keys - {last});
    }
  }

  // ----- what the threads report

  /** What a live thread's event makes of the status of its channel. */
  function Shown(d: Driver, prior: Option<Status>, e: DriverEvent): Option<Status> {
    var c := d.config;
    match e
    case Reports(_, MarkRunning(event)) => Some(Status(c.kind, c.id, c.enabled, Running, None, 0, Some(event)))
    case Reports(_, MarkDegraded(reason)) =>
      var attempt := if prior.Some? then prior.value.reconnectAttempt else 0;
      Some(Status(c.kind, c.id, c.enabled, Degraded, Some(reason), attempt, Some(reason)))
    case Reports(_, MarkReconnecting(attempt, reason)) =>
      Some(Status(c.kind, c.id, c.enabled, Reconnecting, Some(reason), attempt, Some(reason)))
    case Exit(_, _, Some(error)) => Some(Status(c.kind, c.id, c.enabled, Failed, Some(error), 0, None))
    case Exit(_, sawShutdown, None) =>
      if sawShutdown && d.told then Some(Status(c.kind, c.id, c.enabled, Stopped, None, 0, None)) else prior
  }

  function StatusAt(m: Manager, key: string): Option<Status> {
    if key in m.statuses then Some(m.statuses[key]) else None
  }

  predicate SpeaksFor(drivers: seq<Driver>, e: DriverEvent, key: string) {
    e.driver < |drivers| && Key(drivers[e.driver].config) == key
  }

  /** One event changes the status of the channel it speaks for, and no other. */
  lemma EventIsShown(m: Manager, e: DriverEvent, key: string)
    ensures
      StatusAt(React(m, e), key)
      == if SpeaksFor(m.drivers, e, key) && !m.drivers[e.driver].ended
         then Shown(m.drivers[e.driver], StatusAt(m, key), e) else StatusAt(m, key)
  {
    hide Key;
  }

  lemma EndsKeepSpeakers(before: seq<Driver>, after: seq<Driver>, e: DriverEvent, key: string)
    requires OnlyEnds(before, after)
    ensures SpeaksFor(before, e, key) <==> SpeaksFor(after, e, key)
  {}

  lemma {:induction false} OthersAreSilent(m: Manager, es: seq<DriverEvent>, from: nat, key: string)
    requires from <= |es| && forall i :: from <= i < |es| ==> !SpeaksFor(m.drivers, es[i], key)
    ensures StatusAt(ReactAll(m, es), key) == StatusAt(ReactAll(m, es[..from]), key)
    decreases |es|
  {
    hide React, StatusAt, SpeaksFor, OnlyEnds;
    if from == |es| {
      assert es[..from] == es;
    } else {
      var init, last := es[..|es| - 1], es[|es| - 1];
      assert init[..from] == es[..from];
      OthersAreSilent(m, init, from, key);
      ReactAllOnlyEnds(m, init);
      EndsKeepSpeakers(m.drivers, ReactAll(m, init).drivers, last, key);
      EventIsShown(ReactAll(m, init), last, key);
    }
  }

  /** However the threads interleave, the status of a channel is told by the last event of a live thread
      that speaks for it. */
  lemma {:induction false} LastWordIsShown(m: Manager, es: seq<DriverEvent>, i: nat, key: string)
    requires i < |es| && SpeaksFor(m.drivers, es[i], key)
    requires forall j :: i < j < |es| ==> !SpeaksFor(m.drivers, es[j], key)
    requires
      var drivers := ReactAll(m, es[..i]).drivers;
      es[i].driver < |drivers| && !drivers[es[i].driver].ended
    ensures
      var before := ReactAll(m, es[..i]);
      StatusAt(ReactAll(m, es), key) == Shown(before.drivers[es[i].driver], StatusAt(before, key), es[i])
  {
    hide React, StatusAt, SpeaksFor, Shown, OnlyEnds;
    var upTo := es[..i + 1];
    assert upTo[..i] == es[..i];
    ReactAllOnlyEnds(m, es[..i]);
    EndsKeepSpeakers(m.drivers, ReactAll(m, es[..i]).drivers, es[i], key);
    EventIsShown(ReactAll(m, es[..i]), es[i], key);
    OthersAreSilent(m, es, i + 1, key);
  }
}
