/** The recursive merge of configuration values that migration is built on. */
module ConfigMerge {
  import opened Wrappers

  datatype Value =
    | Scalar(text: string)
    | Array(items: seq<Value>)
    | Table(entries: map<string, Value>)

  /** Tables merge key by key; anything else is replaced by the overlay. */
  function Merge(base: Value, overlay: Value): Value
    decreases overlay
  {
    if base.Table? && overlay.Table? then
      Table(map k | k in base.entries.Keys + overlay.entries.Keys ::
              if k !in overlay.entries then base.entries[k]
              else if k in base.entries then Merge(base.entries[k], overlay.entries[k])
              else overlay.entries[k])
    else overlay
  }

  /** The three cases of one entry of a merged table. */
  lemma MergedEntry(base: Value, overlay: Value, key: string)
    requires base.Table? && overlay.Table?
    ensures Merge(base, overlay).Table?
    ensures Merge(base, overlay).entries.Keys == base.entries.Keys + overlay.entries.Keys
    ensures key in overlay.entries && key in base.entries ==>
              Merge(base, overlay).entries[key] == Merge(base.entries[key], overlay.entries[key])
    ensures key in overlay.entries && key !in base.entries ==> Merge(base, overlay).entries[key] == overlay.entries[key]
    ensures key !in overlay.entries && key in base.entries ==> Merge(base, overlay).entries[key] == base.entries[key]
  {}

  /** The merge as the original performs it: entry by entry, in place. */
  method MergeInPlace(base: Value, overlay: Value) returns (merged: Value)
    ensures merged == Merge(base, overlay)
    decreases overlay
  {
    if !(base.Table? && overlay.Table?) {
      return overlay;
    }
    hide Merge;
    var table, todo := base.entries, overlay.entries.Keys;
    MergedEntry(base, overlay, "");
    ghost var target := Merge(base, overlay).entries;
    forall k | k in base.entries && k !in overlay.entries ensures target[k] == base.entries[k] {
      MergedEntry(base, overlay, k);
    }
    while todo != {}
      invariant todo <= overlay.entries.Keys
      invariant table.Keys == base.entries.Keys + (overlay.entries.Keys - todo)
      invariant forall k :: k in table && k !in todo ==> table[k] == target[k]
      invariant forall k :: k in todo && k in table ==> table[k] == base.entries[k]
      decreases |todo|
    {
      var key :| key in todo;
      var value := overlay.entries[key];
      MergedEntry(base, overlay, key);
      if key in table {
        value := MergeInPlace(table[key], value);
      }
      table := table[key := value];
      todo := todo - {key};
    }
    assert table == target;
    merged := Table(table);
  }

  // ----- a fixpoint

  lemma SameTable(a: Value, b: Value)
    requires a.Table? && b.Table? && a.entries.Keys == b.entries.Keys
    requires forall k :: k in a.entries ==> a.entries[k] == b.entries[k]
    ensures a == b
  {
    assert a.entries == b.entries;
  }

  lemma {:induction false} MergeWithItself(v: Value)
    ensures Merge(v, v) == v
  {
    hide Merge;
    if v.Table? {
      MergedEntry(v, v, "");
      forall k | k in v.entries ensures Merge(v, v).entries[k] == v.entries[k] {
        MergedEntry(v, v, k);
        MergeWithItself(v.entries[k]);
      }
      SameTable(Merge(v, v), v);
    } else {
      ReplacedByOverlay(v, v);
    }
  }

  lemma ReplacedByOverlay(base: Value, overlay: Value)
    requires !(base.Table? && overlay.Table?)
    ensures Merge(base, overlay) == overlay
  {}

  /** Migrating again changes nothing: neither merging the result over the defaults once more, nor
      merging the user's file over the result. */
  lemma {:induction false} MergeIsFixpoint(d: Value, e: Value)
    ensures Merge(d, Merge(d, e)) == Merge(d, e) && Merge(Merge(d, e), e) == Merge(d, e)
    decreases e
  {
    hide Merge;
    var m := Merge(d, e);
    if d.Table? && e.Table? {
      MergedEntry(d, e, "");
      MergedEntry(d, m, "");
      MergedEntry(m, e, "");
      forall k | k in m.entries ensures Merge(d, m).entries[k] == m.entries[k] && Merge(m, e).entries[k] == m.entries[k] {
        MergedEntry(d, e, k);
        MergedEntry(d, m, k);
        MergedEntry(m, e, k);
        if k in e.entries && k in d.entries {
          MergeIsFixpoint(d.entries[k], e.entries[k]);
        } else {
          MergeWithItself(m.entries[k]);
        }
      }
      SameTable(Merge(d, m), m);
      SameTable(Merge(m, e), m);
    } else {
      ReplacedByOverlay(d, e);
      MergeWithItself(e);
      ReplacedByOverlay(d, m);
    }
  }

  // ----- nothing is lost

  function Lookup(v: Value, path: seq<string>): Option<Value> {
    if path == [] then Some(v)
    else if v.Table? && path[0] in v.entries then Lookup(v.entries[path[0]], path[1..])
    else None
  }

  /** The overlay puts a non-table value somewhere on the way to `path`. */
  predicate CutsOff(v: Value, path: seq<string>) {
    if !v.Table? then true
    else path != [] && path[0] in v.entries && CutsOff(v.entries[path[0]], path[1..])
  }

  /** Every path of a merged value, completely: below a non-table value of the overlay the overlay
      decides; where the overlay says nothing the base decides; where only the overlay has the path it
      is the overlay's; and where both have tables it is their merge. */
  lemma {:induction false} MergedLookup(d: Value, e: Value, path: seq<string>)
    ensures
      var inBase, inOverlay := Lookup(d, path), Lookup(e, path);
      Lookup(Merge(d, e), path)
      == if CutsOff(e, path) then inOverlay
         else if inOverlay.None? then inBase
         else if inBase.None? then inOverlay
         else Some(Merge(inBase.value, inOverlay.value))
    decreases |path|
  {
    if d.Table? && e.Table? && path != [] {
      MergedEntry(d, e, path[0]);
      if path[0] in d.entries && path[0] in e.entries {
        MergedLookup(d.entries[path[0]], e.entries[path[0]], path[1..]);
      }
    }
  }

  /** Every non-table value of the user's file is found at its path in the result. */
  lemma {:induction false} UserValuesSurvive(d: Value, e: Value, path: seq<string>)
    requires Lookup(e, path).Some? && !Lookup(e, path).value.Table?
    ensures Lookup(Merge(d, e), path) == Lookup(e, path)
  {
    MergedLookup(d, e, path);
    if !CutsOff(e, path) && Lookup(d, path).Some? {
      ReplacedByOverlay(Lookup(d, path).value, Lookup(e, path).value);
    }
  }

  /** Every default that the user's file neither defines nor cuts off keeps its value. */
  lemma {:induction false} DefaultsSurvive(d: Value, e: Value, path: seq<string>)
    requires Lookup(e, path).None? && !CutsOff(e, path)
    ensures Lookup(Merge(d, e), path) == Lookup(d, path)
  {
    MergedLookup(d, e, path);
  }

  // ----- migration

  /** `migrate_path_with_defaults`: the value written back, or nothing when it does not validate.
      Parsing and rendering are taken to be inverse to each other. */
  function Migrate(defaults: Value, existing: Option<Value>, valid: Value -> bool): Option<Value> {
    var merged := if existing.Some? then Merge(defaults, existing.value) else defaults;
    if valid(merged) then Some(merged) else None
  }

  /** The value that migration promises for the defaults `d` and the user's file `e`, path by path and
      without merging: at and below a non-table value of the file the file decides, where the file says
      nothing the defaults decide, and where the file has a table there is a table. */
  ghost predicate IsMigrated(d: Value, e: Value, r: Value) {
    forall path: seq<string> ::
      if CutsOff(e, path) then Lookup(r, path) == Lookup(e, path)
      else if Lookup(e, path).None? then Lookup(r, path) == Lookup(d, path)
      else IsTableAt(r, path)
  }

  predicate IsTableAt(v: Value, path: seq<string>) { Lookup(v, path).Some? && Lookup(v, path).value.Table? }

  lemma {:induction false} UncutIsTable(e: Value, path: seq<string>)
    requires !CutsOff(e, path) && Lookup(e, path).Some?
    ensures IsTableAt(e, path)
  {
    if path != [] {
      UncutIsTable(e.entries[path[0]], path[1..]);
    }
  }

  lemma MergeIsMigrated(d: Value, e: Value)
    ensures IsMigrated(d, e, Merge(d, e))
  {
    hide Merge;
    forall path: seq<string>
      ensures if CutsOff(e, path) then Lookup(Merge(d, e), path) == Lookup(e, path)
              else if Lookup(e, path).None? then Lookup(Merge(d, e), path) == Lookup(d, path)
              else IsTableAt(Merge(d, e), path)
    {
      MergedLookup(d, e, path);
      if !CutsOff(e, path) && Lookup(e, path).Some? {
        UncutIsTable(e, path);
        if Lookup(d, path).Some? {
          MergedIsTable(Lookup(d, path).value, Lookup(e, path).value);
        }
      }
    }
  }

  lemma MergedIsTable(d: Value, e: Value)
    requires e.Table?
    ensures Merge(d, e).Table?
  {}

  /** Two values are the same at every path, except that two tables need not be compared. */
  ghost predicate SameLeaves(a: Value, b: Value) {
    forall path: seq<string> :: Lookup(a, path) == Lookup(b, path) || (IsTableAt(a, path) && IsTableAt(b, path))
  }

  lemma {:induction false} SameLeavesIsEqual(a: Value, b: Value)
    requires SameLeaves(a, b)
    ensures a == b
    decreases a
  {
    assert Lookup(a, []) == Some(a) && Lookup(b, []) == Some(b);
    if a.Table? {
      forall k | k in a.entries.Keys + b.entries.Keys
        ensures k in a.entries && k in b.entries && a.entries[k] == b.entries[k]
      {
        SameEntry(a, b, k);
        SameLeavesIsEqual(a.entries[k], b.entries[k]);
      }
      SameTable(a, b);
    }
  }

  lemma SameEntry(a: Value, b: Value, k: string)
    requires SameLeaves(a, b) && a.Table? && b.Table? && (k in a.entries || k in b.entries)
    ensures k in a.entries && k in b.entries && SameLeaves(a.entries[k], b.entries[k])
  {
    EntryLookup(a, k, []);
    EntryLookup(b, k, []);
    assert Lookup(a, [k] + []) == Lookup(b, [k] + []) || (IsTableAt(a, [k] + []) && IsTableAt(b, [k] + []));
    var x, y := a.entries[k], b.entries[k];
    forall path: seq<string> ensures Lookup(x, path) == Lookup(y, path) || (IsTableAt(x, path) && IsTableAt(y, path)) {
      EntryLookup(a, k, path);
      EntryLookup(b, k, path);
      assert Lookup(a, [k] + path) == Lookup(b, [k] + path) || (IsTableAt(a, [k] + path) && IsTableAt(b, [k] + path));
    }
  }

  lemma EntryLookup(v: Value, k: string, path: seq<string>)
    requires v.Table?
    ensures Lookup(v, [k] + path) == if k in v.entries then Lookup(v.entries[k], path) else None
  {
    assert ([k] + path)[1..] == path;
  }

  /** There is only one such value. */
  lemma MigratedIsUnique(d: Value, e: Value, r: Value, r': Value)
    requires IsMigrated(d, e, r) && IsMigrated(d, e, r')
    ensures r == r'
  {
    forall path: seq<string>
      ensures Lookup(r, path) == Lookup(r', path) || (IsTableAt(r, path) && IsTableAt(r', path))
    {
      assert CutsOff(e, path) || Lookup(e, path).None? || IsTableAt(r, path);
      assert CutsOff(e, path) || Lookup(e, path).None? || IsTableAt(r', path);
    }
    SameLeavesIsEqual(r, r');
  }

  /** Migration writes exactly the promised value if that is valid, and fails if it is not. Without a file
      the promised value is the defaults. */
  lemma {:induction false} MigrationKeepsItsPromise(defaults: Value, existing: Option<Value>, valid: Value -> bool, r: Value)
    requires if existing.Some? then IsMigrated(defaults, existing.value, r) else r == defaults
    ensures Migrate(defaults, existing, valid) == if valid(r) then Some(r) else None
  {
    if existing.Some? {
      MergeIsMigrated(defaults, existing.value);
      MigratedIsUnique(defaults, existing.value, r, Merge(defaults, existing.value));
    }
  }

  /** Migration loses nothing: each non-table value of the user's file is found at its path, and each
      default that the file neither defines nor cuts off keeps its value. */
  lemma {:induction false} MigrationLosesNothing(defaults: Value, e: Value, valid: Value -> bool, path: seq<string>)
    requires Migrate(defaults, Some(e), valid).Some?
    ensures
      var r := Migrate(defaults, Some(e), valid).value;
      && valid(r)
      && (Lookup(e, path).Some? && !Lookup(e, path).value.Table? ==> Lookup(r, path) == Lookup(e, path))
      && (Lookup(e, path).None? && !CutsOff(e, path) ==> Lookup(r, path) == Lookup(defaults, path))
  {
    if Lookup(e, path).Some? && !Lookup(e, path).value.Table? {
      UserValuesSurvive(defaults, e, path);
    }
    if Lookup(e, path).None? && !CutsOff(e, path) {
      DefaultsSurvive(defaults, e, path);
    }
  }

  /** Migrating a migrated file succeeds and writes the same file. */
  lemma {:induction false} MigrationIsIdempotent(defaults: Value, existing: Option<Value>, valid: Value -> bool)
    requires Migrate(defaults, existing, valid).Some?
    ensures
      var once := Migrate(defaults, existing, valid);
      Migrate(defaults, once, valid) == once
  {
    if existing.Some? {
      MergeIsFixpoint(defaults, existing.value);
    } else {
      MergeWithItself(defaults);
    }
  }
}
