/** The diff plan that both lifecycle managers drive: what to keep, start, restart and stop. */
module Planning {

  /** Keys in the order in which they are handled; a key to start or restart stands for its desired config. */
  datatype Plan = Plan(keep: seq<string>, start: seq<string>, restart: seq<string>, stop: seq<string>)

  function Elements(s: seq<string>): set<string> { set k | k in s }

  predicate NoDuplicates(s: seq<string>) { forall i, j :: 0 <= i < j < |s| ==> s[i] != s[j] }

  /** Iteration over an ordered map: every key, once. Any such order will do. */
  ghost predicate Enumerates(order: set<string> -> seq<string>) {
    forall s :: NoDuplicates(order(s)) && Elements(order(s)) == s
  }

  datatype Fate = Keep | Start | Restart | Stop

  function FateOf<C(==)>(current: map<string, C>, desired: map<string, C>, key: string): Fate {
    if key !in desired then Stop
    else if key !in current then Start
    else if current[key] == desired[key] then Keep
    else Restart
  }

  function Select<C(==)>(keys: seq<string>, current: map<string, C>, desired: map<string, C>, fate: Fate): seq<string> {
    if keys == [] then []
    else
      var last := keys[|keys| - 1];
      Select(keys[..|keys| - 1], current, desired, fate) + if FateOf(current, desired, last) == fate then [last] else []
  }

  function WithFate<C(==)>(keys: set<string>, current: map<string, C>, desired: map<string, C>, fate: Fate): set<string> {
    set k | k in keys && FateOf(current, desired, k) == fate
  }

  lemma NoElements()
    ensures Elements([]) == {}
  {}

  lemma NoDuplicatesSnoc(init: seq<string>, last: string)
    ensures NoDuplicates(init + [last]) <==> NoDuplicates(init) && last !in init
  {
    var all := init + [last];
    assert all[|init|] == last && forall i :: 0 <= i < |init| ==> all[i] == init[i];
  }

  lemma {:induction false} SelectMeaning<C>(
    keys: seq<string>, current: map<string, C>, desired: map<string, C>, fate: Fate)
    ensures Elements(Select(keys, current, desired, fate)) == WithFate(Elements(keys), current, desired, fate)
    ensures NoDuplicates(keys) ==> NoDuplicates(Select(keys, current, desired, fate))
  {
    hide NoDuplicates, FateOf, Elements;
    if keys == [] {
      assert Elements(keys) == {} by { NoElements(); }
      assert Select(keys, current, desired, fate) == keys;
    } else {
      var init, last := keys[..|keys| - 1], keys[|keys| - 1];
      SelectMeaning(init, current, desired, fate);
      assert keys == init + [last];
      ElementsSnoc(init, last);
      NoDuplicatesSnoc(init, last);
      var rest := Select(init, current, desired, fate);
      if FateOf(current, desired, last) == fate {
        ElementsSnoc(rest, last);
        NoDuplicatesSnoc(rest, last);
      } else {
        assert Select(keys, current, desired, fate) == rest;
      }
    }
  }

  lemma ElementsSnoc(init: seq<string>, last: string)
    ensures Elements(init + [last]) == Elements(init) + {last} && (last in Elements(init) <==> last in init)
  {}

  // ----- what a snapshot asks for

  /** The enabled configs by key; of several with one key the last wins. */
  function EnabledByKey<C>(snapshot: seq<C>, key: C -> string, enabled: C -> bool): (d: map<string, C>)
    ensures forall k :: k in d ==> key(d[k]) == k && enabled(d[k]) && d[k] in snapshot
  {
    if snapshot == [] then map[]
    else
      var last := snapshot[|snapshot| - 1];
      var rest := EnabledByKey(snapshot[..|snapshot| - 1], key, enabled);
      if enabled(last) then rest[key(last) := last] else rest
  }

  /** Place `i` of the snapshot is enabled and no later enabled config has its key. */
  predicate Decides<C>(snapshot: seq<C>, key: C -> string, enabled: C -> bool, i: nat)
    requires i < |snapshot|
  {
    enabled(snapshot[i]) && forall j :: i < j < |snapshot| && enabled(snapshot[j]) ==> key(snapshot[j]) != key(snapshot[i])
  }

  /** A config is desired under a key if and only if it stands at the place that decides that key. */
  lemma {:induction false} EnabledByKeyMeaning<C>(
    snapshot: seq<C>, key: C -> string, enabled: C -> bool, k: string, c: C)
    ensures
      var d := EnabledByKey(snapshot, key, enabled);
      k in d && d[k] == c
      <==> exists i :: 0 <= i < |snapshot| && Decides(snapshot, key, enabled, i) && snapshot[i] == c && key(c) == k
  {
    if snapshot != [] {
      hide Decides;
      var n := |snapshot| - 1;
      var init, last := snapshot[..n], snapshot[n];
      EnabledByKeyMeaning(init, key, enabled, k, c);
      LastDecides(snapshot, key, enabled);
      forall i | 0 <= i < n
        ensures Decides(snapshot, key, enabled, i)
            <==> Decides(init, key, enabled, i) && !(enabled(last) && key(last) == key(init[i]))
      {
        LastOverrides(snapshot, key, enabled, i);
      }
    }
  }

  lemma LastDecides<C>(snapshot: seq<C>, key: C -> string, enabled: C -> bool)
    requires snapshot != []
    ensures Decides(snapshot, key, enabled, |snapshot| - 1) <==> enabled(snapshot[|snapshot| - 1])
  {}

  lemma LastOverrides<C>(snapshot: seq<C>, key: C -> string, enabled: C -> bool, i: nat)
    requires i < |snapshot| - 1
    ensures
      var init, last := snapshot[..|snapshot| - 1], snapshot[|snapshot| - 1];
      Decides(snapshot, key, enabled, i)
      <==> Decides(init, key, enabled, i) && !(enabled(last) && key(last) == key(init[i]))
  {
    var init := snapshot[..|snapshot| - 1];
    assert forall j :: 0 <= j < |init| ==> init[j] == snapshot[j];
  }

  lemma EnumeratesAll(order: set<string> -> seq<string>, keys: set<string>)
    requires Enumerates(order)
    ensures NoDuplicates(order(keys)) && Elements(order(keys)) == keys
  {}

  function MakePlan<C(==)>(order: set<string> -> seq<string>, current: map<string, C>, desired: map<string, C>): Plan {
    var wanted := order(desired.Keys);
    Plan(Select(wanted, current, desired, Keep),
         Select(wanted, current, desired, Start),
         Select(wanted, current, desired, Restart),
         Select(order(current.Keys), current, desired, Stop))
  }

  /** The plan partitions the keys: each desired key is kept, started or restarted, each other current
      key is stopped, and no list repeats a key. */
  lemma {:induction false} PlanMeaning<C>(
    order: set<string> -> seq<string>, current: map<string, C>, desired: map<string, C>)
    requires Enumerates(order)
    ensures
      var p := MakePlan(order, current, desired);
      && Elements(p.stop) == current.Keys - desired.Keys
      && Elements(p.start) == desired.Keys - current.Keys
      && Elements(p.keep) == (set k | k in current && k in desired && current[k] == desired[k])
      && Elements(p.restart) == (set k | k in current && k in desired && current[k] != desired[k])
      && NoDuplicates(p.stop) && NoDuplicates(p.start) && NoDuplicates(p.keep) && NoDuplicates(p.restart)
  {
    hide Elements, NoDuplicates, Select;
    hide Enumerates;
    EnumeratesAll(order, desired.Keys);
    EnumeratesAll(order, current.Keys);
    var wanted, running := order(desired.Keys), order(current.Keys);
    assert NoDuplicates(wanted) && Elements(wanted) == desired.Keys;
    assert NoDuplicates(running) && Elements(running) == current.Keys;
    SelectMeaning(wanted, current, desired, Keep);
    SelectMeaning(wanted, current, desired, Start);
    SelectMeaning(wanted, current, desired, Restart);
    SelectMeaning(running, current, desired, Stop);
  }

  /** What is started after the stops: each desired key that is not kept, once. */
  lemma StartsMeaning<C>(order: set<string> -> seq<string>, current: map<string, C>, desired: map<string, C>)
    requires Enumerates(order)
    ensures
      var p := MakePlan(order, current, desired);
      var keys := p.start + p.restart;
      && NoDuplicates(keys) && Elements(keys) == Elements(p.start) + Elements(p.restart)
      && forall k :: k in keys <==> k in desired && (k !in current || current[k] != desired[k])
  {
    hide MakePlan, Enumerates;
    PlanMeaning(order, current, desired);
    var p := MakePlan(order, current, desired);
    var keys := p.start + p.restart;
    forall i, j | 0 <= i < j < |keys| ensures keys[i] != keys[j] {
      if i < |p.start| <= j {
        assert keys[i] in Elements(p.start) && keys[j] in Elements(p.restart);
      }
    }
    forall k ensures k in keys <==> k in Elements(p.start) || k in Elements(p.restart) {}
  }

  lemma EmptySelection<C>(current: map<string, C>, desired: map<string, C>)
    ensures forall fate :: Select([], current, desired, fate) == []
  {}

  lemma SelectNext<C>(keys: seq<string>, i: nat, current: map<string, C>, desired: map<string, C>, fate: Fate)
    requires i < |keys|
    ensures Select(keys[..i + 1], current, desired, fate)
         == Select(keys[..i], current, desired, fate) + if FateOf(current, desired, keys[i]) == fate then [keys[i]] else []
  {
    hide FateOf;
    assert keys[..i + 1][..i] == keys[..i];
  }

  lemma InOrder(order: set<string> -> seq<string>, keys: set<string>, i: nat)
    requires Enumerates(order) && i < |order(keys)|
    ensures order(keys)[i] in keys
  {
    assert order(keys)[i] in Elements(order(keys));
  }

  /** The two loops that fill the plan. */
  method PlanUpdates<C(==)>(order: set<string> -> seq<string>, current: map<string, C>, desired: map<string, C>)
    returns (p: Plan)
    requires Enumerates(order)
    ensures p == MakePlan(order, current, desired)
  {
    hide NoDuplicates, Select, Elements, Enumerates;
    EmptySelection(current, desired);
    var stop, keep, start, restart := [], [], [], [];
    var running := order(current.Keys);
    for i := 0 to |running|
      invariant stop == Select(running[..i], current, desired, Stop)
    {
      SelectNext(running, i, current, desired, Stop);
      if running[i] !in desired {
        stop := stop + [running[i]];
      }
    }
    assert running[..|running|] == running;
    var wanted := order(desired.Keys);
    for i := 0 to |wanted|
      invariant keep == Select(wanted[..i], current, desired, Keep)
      invariant start == Select(wanted[..i], current, desired, Start)
      invariant restart == Select(wanted[..i], current, desired, Restart)
    {
      SelectNext(wanted, i, current, desired, Keep);
      SelectNext(wanted, i, current, desired, Start);
      SelectNext(wanted, i, current, desired, Restart);
      var key := wanted[i];
      InOrder(order, desired.Keys, i);
      if key !in current {
        start := start + [key];
      } else if current[key] == desired[key] {
        keep := keep + [key];
      } else {
        restart := restart + [key];
      }
    }
    assert wanted[..|wanted|] == wanted;
    p := Plan(keep, start, restart, stop);
  }

  /** Planning again when every running config is the desired one stops and restarts nothing. */
  lemma {:induction false} StablePlan<C>(
    order: set<string> -> seq<string>, current: map<string, C>, desired: map<string, C>)
    requires Enumerates(order)
    requires current.Keys <= desired.Keys && forall k :: k in current ==> current[k] == desired[k]
    ensures
      var p := MakePlan(order, current, desired);
      p.stop == [] && p.restart == [] && Elements(p.start) == desired.Keys - current.Keys && Elements(p.keep) == current.Keys
  {
    hide MakePlan, Elements, NoDuplicates;
    PlanMeaning(order, current, desired);
    var p := MakePlan(order, current, desired);
    EmptyElements(p.stop);
    EmptyElements(p.restart);
  }

  lemma EmptyElements(s: seq<string>)
    ensures Elements(s) == {} ==> s == []
  {
    if s != [] {
      assert s[0] in Elements(s);
    }
  }
}
