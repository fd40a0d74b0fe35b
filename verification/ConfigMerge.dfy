/** Merging the defaults into a config, and looking values up by path. */
module ConfigMerge {
  import opened Prelude

  type Key = string

  /** Values as deserialized; wrappers come from newtype structs and options. */
  datatype Value =
    | Scalar(content: int)
    | Table(entries: map<Key, Value>)
    | Newtype(inner: Value)
    | Opt(wrapped: Option<Value>)

  function Get(entries: map<Key, Value>, k: Key): Option<Value> {
    if k in entries then Some(entries[k]) else None
  }

  /** Follows a path through tables only. */
  function Lookup(v: Value, path: seq<Key>): Option<Value>
    decreases |path|
  {
    if path == [] then Some(v)
    else if v.Table? && path[0] in v.entries then Lookup(v.entries[path[0]], path[1..])
    else None
  }

  /** The config with the defaults filled in; wrappers on the way are taken off. */
  function Merged(config: Option<Value>, default: Value): Value
    decreases default, config.Some?, if config.Some? then config.value else default
  {
    match (config, default)
    case (None, d) => d
    case (Some(Newtype(t)), d) => Merged(Some(t), d)
    case (Some(t), Newtype(d)) => Merged(Some(t), d)
    case (Some(Opt(t)), d) => Merged(t, d)
    case (Some(Table(c)), Table(d)) => Table(MergedTables(c, default))
    case (Some(v), _) => v
  }

  function MergedTables(c: map<Key, Value>, default: Value): map<Key, Value>
    requires default.Table?
    decreases default, false
  {
    var d := default.entries;
    map k | k in c.Keys + d.Keys :: if k in d then Merged(Get(c, k), d[k]) else c[k]
  }

  // === Lookup in a merged config ===

  /** Built from tables and scalars. */
  ghost predicate Plain(v: Value) {
    match v
    case Scalar(_) => true
    case Table(entries) => forall k :: k in entries ==> Plain(entries[k])
    case _ => false
  }

  /** A scalar of the config is in the way of the path. */
  predicate Blocked(c: Value, path: seq<Key>)
    decreases |path|
  {
    path != [] && (c.Scalar? || (c.Table? && path[0] in c.entries && Blocked(c.entries[path[0]], path[1..])))
  }

  /** What the merged config should hold at a path, given what config and default hold there. */
  function Expected(c: Value, d: Value, path: seq<Key>): Option<Value> {
    if Blocked(c, path) then None
    else match (Lookup(c, path), Lookup(d, path))
      case (None, x) => x
      case (x, None) => x
      case (Some(v), Some(x)) => Some(if v.Table? && x.Table? then Merged(Some(v), x) else v)
  }

  /**
   At every path the merged config holds the config's own leaf if there is one, nothing behind a
   scalar of the config, the merge of two tables, and the default's entry otherwise.
   */
  lemma {:induction false} LookupLaw(c: Value, d: Value, path: seq<Key>)
    requires Plain(c) && Plain(d)
    ensures Lookup(Merged(Some(c), d), path) == Expected(c, d, path)
    ensures Lookup(c, path).Some? && Lookup(c, path).value.Scalar? ==>
              Lookup(Merged(Some(c), d), path) == Lookup(c, path)
    decreases |path|
  {
    if Lookup(c, path).Some? { FoundIsNotBlocked(c, path); }
    if path != [] && c.Table? && d.Table? {
      var k, rest, m := path[0], path[1..], MergedTables(c.entries, d);
      assert Lookup(Merged(Some(c), d), path) == if k in m then Lookup(m[k], rest) else None;
      if k in c.entries && k in d.entries {
        assert m[k] == Merged(Some(c.entries[k]), d.entries[k]);
        LookupLaw(c.entries[k], d.entries[k], rest);
      } else if k in d.entries {
        assert m[k] == Merged(None, d.entries[k]) == d.entries[k];
      }
    }
  }

  lemma {:induction false} FoundIsNotBlocked(c: Value, path: seq<Key>)
    requires Lookup(c, path).Some?
    ensures !Blocked(c, path)
    decreases |path|
  {
    if path != [] { FoundIsNotBlocked(c.entries[path[0]], path[1..]); }
  }

  // === Wrappers ===

  /** Newtypes on either side and filled options of the config do not matter; an empty option is like nothing. */
  lemma {:induction false} WrappersAreTransparent(c: Value, d: Value)
    ensures Merged(Some(c), Newtype(d)) == Merged(Some(c), d) == Merged(Some(Newtype(c)), d)
    ensures Merged(Some(Opt(Some(c))), d) == Merged(Some(c), d)
    ensures !d.Newtype? ==> Merged(Some(Opt(None)), d) == d
    decreases c, d
  {
    if d.Newtype? { WrappersAreTransparent(c, d.inner); }
    if c.Newtype? { WrappersAreTransparent(c.inner, d); }
  }

  // === Merging twice ===

  /** Wrappers around nothing. */
  predicate Hollow(v: Value) {
    match v
    case Newtype(t) => Hollow(t)
    case Opt(None) => true
    case Opt(Some(t)) => Hollow(t)
    case _ => false
  }

  /** No newtype and no option with a table or a scalar inside, at any depth. */
  ghost predicate Settled(v: Value) {
    match v
    case Scalar(_) => true
    case Table(entries) => forall k :: k in entries ==> Settled(entries[k])
    case Newtype(_) => false
    case Opt(_) => Hollow(v)
  }

  predicate Idempotent(config: Option<Value>, d: Value) {
    Merged(Some(Merged(config, d)), d) == Merged(config, d)
  }

  ghost predicate AlwaysIdempotent(d: Value) {
    forall config :: Idempotent(config, d)
  }

  /** A config that is there gives way to the default only if it is hollow; no newtype is left outside. */
  lemma {:induction false} HollowGivesWay(v: Value, d: Value)
    ensures !Merged(Some(v), d).Newtype?
    ensures !d.Newtype? && Hollow(v) ==> Merged(Some(v), d) == d
    ensures !d.Newtype? && !Hollow(v) ==> Merged(Some(v), d).Scalar? || Merged(Some(v), d).Table?
    decreases d, v
  {
    match (v, d)
    case (Newtype(t), _) => HollowGivesWay(t, d);
    case (_, Newtype(x)) => HollowGivesWay(v, x);
    case (Opt(Some(t)), _) => HollowGivesWay(t, d);
    case _ =>
  }

  /** Merging a value into itself takes off its wrappers, so it changes nothing exactly when it is settled. */
  lemma {:induction false} SelfMergeIff(d: Value)
    ensures Merged(Some(d), d) == d <==> Settled(d)
    decreases d
  {
    HollowGivesWay(d, d);
    if d.Table? {
      var m := MergedTables(d.entries, d);
      forall k | k in d.entries
        ensures m[k] == d.entries[k] <==> Settled(d.entries[k])
      {
        SelfMergeIff(d.entries[k]);
      }
      if Settled(d) { assert m == d.entries; }
    }
  }

  lemma {:induction false} SettledIsIdempotent(config: Option<Value>, d: Value)
    requires Settled(d)
    ensures Idempotent(config, d)
    decreases d, config.Some?, if config.Some? then config.value else d
  {
    match config
    case None => SelfMergeIff(d);
    case Some(Newtype(t)) => SettledIsIdempotent(Some(t), d);
    case Some(Opt(t)) => SettledIsIdempotent(t, d);
    case Some(Table(c)) =>
      if d.Table? { TablesAreIdempotent(c, d); }
    case Some(Scalar(_)) =>
  }

  lemma {:induction false} TablesAreIdempotent(c: map<Key, Value>, d: Value)
    requires d.Table? && Settled(d)
    ensures MergedTables(MergedTables(c, d), d) == MergedTables(c, d)
    decreases d, false
  {
    var m := MergedTables(c, d);
    forall k | k in d.entries
      ensures Merged(Some(m[k]), d.entries[k]) == m[k]
    {
      SettledIsIdempotent(Get(c, k), d.entries[k]);
    }
    assert MergedTables(m, d) == m;
  }

  /** Merging the same default twice changes nothing, whatever the config, exactly when the default is settled. */
  lemma IdempotentIff(d: Value)
    ensures AlwaysIdempotent(d) <==> Settled(d)
  {
    if Settled(d) {
      forall config
        ensures Idempotent(config, d)
      {
        SettledIsIdempotent(config, d);
      }
    }
    if AlwaysIdempotent(d) {
      assert Idempotent(None, d);
      SelfMergeIff(d);
    }
  }

  // === The code ===

  /** Takes the entries out one by one and puts them back merged. */
  method AddDefaults(config: Option<Value>, default: Value) returns (r: Value)
    ensures r == Merged(config, default)
    decreases default, config.Some?, if config.Some? then config.value else default
  {
    match (config, default) {
      case (None, d) => r := d;
      case (Some(Newtype(t)), d) => r := AddDefaults(Some(t), d);
      case (Some(t), Newtype(d)) => r := AddDefaults(Some(t), d);
      case (Some(Opt(t)), d) => r := AddDefaults(t, d);
      case (Some(Table(c)), Table(d)) =>
        var entries, todo := c, d.Keys;
        while todo != {}
          invariant todo <= d.Keys && entries.Keys == c.Keys + (d.Keys - todo)
          invariant forall k :: k in todo && k in c ==> entries[k] == c[k]
          invariant forall k :: k in d.Keys - todo ==> entries[k] == Merged(Get(c, k), d[k])
          invariant forall k :: k in c.Keys - d.Keys ==> entries[k] == c[k]
        {
          var k :| k in todo;
          var removed := Get(entries, k);
          entries := entries - {k};
          var merged := AddDefaults(removed, d[k]);
          entries := entries[k := merged];
          todo := todo - {k};
        }
        r := Table(entries);
        assert entries == MergedTables(c, default);
      case (Some(v), _) => r := v;
    }
  }

  method LookupValue(v: Value, path: seq<Key>) returns (r: Option<Value>)
    ensures r == Lookup(v, path)
  {
    var value, i := v, 0;
    while i < |path|
      invariant 0 <= i <= |path| && Lookup(value, path[i..]) == Lookup(v, path)
    {
      if !value.Table? || path[i] !in value.entries { return None; }
      assert path[i..][1..] == path[i + 1..];
      value := value.entries[path[i]];
      i := i + 1;
    }
    return Some(value);
  }
}
