/** The manager object itself: fields updated in place, one method per operation of the original,
    each proved to have the effect that module `Channels` gives it. */
module ChannelManager {
  import opened Wrappers
  import opened Planning
  import opened Channels

  class ChannelManager {
    var channels: map<string, Handle>
    var statuses: map<string, Status>
    var drivers: seq<Driver>
    var clock: nat

    function View(): Manager
      reads this
    {
      Manager(channels, statuses, drivers, clock)
    }

    constructor ()
      ensures View() == FRESH
    {
      channels, statuses, drivers, clock := map[], map[], [], 0;
    }

    /** The driver threads run until the manager next takes the status lock. */
    method LetThreadsRun(env: Env)
      modifies this
      ensures View() == Interfere(env, old(View()))
    {
      var r := Interfere(env, View());
      channels, statuses, drivers, clock := r.channels, r.statuses, r.drivers, r.clock;
    }

    method PutStatus(env: Env, c: Config, state: Lifecycle, lastError: Option<string>)
      modifies this
      ensures View() == Put(env, old(View()), c, state, lastError)
    {
      LetThreadsRun(env);
      statuses := statuses[Key(c) := StatusOf(c, state, lastError)];
    }

    method Start(env: Env, c: Config)
      requires Key(c) !in channels
      modifies this
      ensures View() == StartChannel(env, old(View()), c)
    {
      hide Put, Interfere, Apply;
      ghost var before := View();
      PutStatus(env, c, Starting, None);
      var buildError := env.buildError(clock);
      if buildError.Some? {
        PutStatus(env, c, Failed, buildError);
        return;
      }
      PutStatus(env, c, Running, None);
      LetThreadsRun(env);
      statuses := Apply(statuses, c, MarkRunning("channel task started"));
      var spawnError := env.spawnError(clock);
      if spawnError.Some? {
        PutStatus(env, c, Failed, spawnError);
        return;
      }
      assert Announce(env, before, c) == (View(), true);
      var driver := |drivers|;
      drivers := drivers + [Driver(c, false, false, false)];
      LetThreadsRun(env);
      channels := channels[Key(c) := Handle(c, driver)];
    }

    method TellDriver(driver: nat)
      modifies this
      ensures View() == Tell(old(View()), driver)
    {
      if driver < |drivers| {
        drivers := drivers[driver := drivers[driver].(told := true)];
      }
    }

    method AwaitStop(env: Env, h: Handle)
      modifies this
      ensures View() == FinishStop(env, old(View()), h)
    {
      hide Put, Interfere;
      LetThreadsRun(env);
      if h.driver < |drivers| && drivers[h.driver].ended && env.joins(clock) {
        drivers := drivers[h.driver := drivers[h.driver].(joined := true)];
        PutStatus(env, h.config, Stopped, None);
      } else {
        PutStatus(env, h.config, Failed, Some("timed out waiting channel shutdown"));
      }
    }

    method Stop(env: Env, key: string)
      modifies this
      ensures View() == StopChannel(env, old(View()), key)
    {
      if key !in channels {
        return;
      }
      var h := channels[key];
      channels := channels - {key};
      TellDriver(h.driver);
      AwaitStop(env, h);
    }

    method StopEach(env: Env, keys: seq<string>)
      modifies this
      ensures View() == StopAll(env, old(View()), keys)
    {
      hide StopChannel;
      for i := 0 to |keys|
        invariant View() == StopAll(env, old(View()), keys[..i])
      {
        Stop(env, keys[i]);
        assert keys[..i + 1][..i] == keys[..i];
      }
      assert keys[..|keys|] == keys;
    }

    method StartEach(env: Env, keys: seq<string>, desired: map<string, Config>)
      requires Startable(View(), keys, desired)
      modifies this
      ensures View() == StartAll(env, old(View()), keys, desired)
    {
      hide StartChannel;
      ghost var before := View();
      for i := 0 to |keys|
        invariant Startable(before, keys[..i], desired) && View() == StartAll(env, before, keys[..i], desired)
      {
        StartableGrows(before, keys, desired, i);
        assert keys[i] !in Elements(keys[..i]);
        Start(env, desired[keys[i]]);
        assert keys[..i + 1][..i] == keys[..i];
      }
      assert keys[..|keys|] == keys;
    }

    static lemma StartableGrows(m: Manager, keys: seq<string>, desired: map<string, Config>, i: nat)
      requires Startable(m, keys, desired) && i < |keys|
      ensures Startable(m, keys[..i + 1], desired) && keys[i] !in keys[..i]
    {}

    method ReconcileStatuses(env: Env, snapshot: seq<Config>)
      modifies this
      ensures View() == Reconcile(env, old(View()), snapshot)
    {
      hide Interfere, CorrectOne;
      LetThreadsRun(env);
      var keys := SnapshotKeys(snapshot);
      statuses := map k | k in statuses && k in keys :: statuses[k];
      ghost var before := View();
      for i := 0 to |snapshot|
        invariant View() == before.(statuses := Correct(before.statuses, snapshot[..i]))
      {
        assert snapshot[..i + 1][..i] == snapshot[..i];
        CorrectStatus(snapshot[i]);
      }
      assert snapshot[..|snapshot|] == snapshot;
    }

    method CorrectStatus(c: Config)
      modifies this
      ensures View() == old(View()).(statuses := CorrectOne(old(statuses), c))
    {
      hide Key;
      if Key(c) in statuses {
        var s := statuses[Key(c)].(enabled := c.enabled, kind := c.kind, id := c.id);
        if !c.enabled {
          s := s.(state := Stopped, lastError := None, reconnectAttempt := 0);
        }
        statuses := statuses[Key(c) := s];
      } else {
        statuses := statuses[Key(c) := StatusOf(c, Stopped, None)];
      }
    }

    method SyncTo(env: Env, snapshot: seq<Config>) returns (p: Plan)
      requires Enumerates(env.order)
      modifies this
      ensures p == PlanFor(env, old(View()), snapshot)
      ensures View() == Sync(env, old(View()), snapshot)
    {
      hide StopAll, StartAll, Reconcile, Enumerates, MakePlan;
      var desired := DesiredEnabled(snapshot);
      PlanIsStartable(env, View(), snapshot);
      p := PlanUpdates(env.order, Configs(channels), desired);
      StopEach(env, p.stop);
      StopEach(env, p.restart);
      StartEach(env, p.start + p.restart, desired);
      ReconcileStatuses(env, snapshot);
    }

    method RestartOne(env: Env, key: string, snapshot: seq<Config>) returns (error: Option<string>)
      modifies this
      ensures
        match RestartChannel(env, old(View()), key, snapshot)
        case Success(m) => error == None && View() == m
        case Failure(e) => error == Some(e) && View() == old(View())
    {
      hide StopChannel, StartChannel, Reconcile;
      match FindConfig(snapshot, key)
      case None =>
        error := Some("channel '" + key + "' not found in config");
      case Some(c) =>
        if !c.enabled {
          return Some("channel '" + key + "' is disabled in config");
        }
        StopKeepsChannels(env, View(), key);
        Stop(env, key);
        Start(env, c);
        ReconcileStatuses(env, snapshot);
        error := None;
    }

    method ShutdownAll(env: Env)
      modifies this
      ensures View() == Shutdown(env, old(View()), |env.order(Elements(Waiting(env, old(View()))))|)
    {
      hide FinishStop, Tell;
      var handles := channels;
      channels := map[];
      ghost var taken := View();
      var keys := env.order(handles.Keys);
      var waiting := [];
      for i := 0 to |keys|
        invariant (View(), waiting) == PollAll(env, taken, keys[..i], handles)
      {
        assert keys[..i + 1][..i] == keys[..i];
        if keys[i] in handles {
          TellDriver(handles[keys[i]].driver);
          if env.immediate(clock) {
            AwaitStop(env, handles[keys[i]]);
          } else {
            waiting := waiting + [keys[i]];
          }
        }
      }
      assert keys[..|keys|] == keys;
      ghost var polled := View();
      var order := env.order(Elements(waiting));
      for i := 0 to |order|
        invariant View() == FinishAll(env, polled, order[..i], handles)
      {
        assert order[..i + 1][..i] == order[..i];
        if order[i] in handles {
          AwaitStop(env, handles[order[i]]);
        }
      }
    }

    /** The stops still waiting after the first poll of a shutdown. */
    static function Waiting(env: Env, m: Manager): seq<string> {
      PollAll(env, m.(channels := map[]), env.order(m.channels.Keys), m.channels).1
    }
  }
}
