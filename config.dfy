/**
 * `orange.config.Config`: a program's settings as a nested table, read and
 * written by dotted keys (`"db.host"` is entry `host` of table `db`). Every
 * successful `set` saves the whole table; `get` of an absent key with a truthy
 * default stores that default through `set`.
 *
 * A table is a map from names to values, and a value is either a scalar or a
 * nested table. Where the walk meets a scalar while names remain, Python
 * raises: `AttributeError` for `scalar.get(...)` inside the walk, `TypeError`
 * for the final `scalar[name] = value` of `set`.
 */
module Config {
  import opened Wrappers
  import opened Strings
  import opened PyVal

  datatype Tree = Leaf(v: Value) | Node(m: map<string, Tree>)

  type Table = map<string, Tree>

  datatype Error = AttributeError | TypeError

  /** Python truthiness of a setting: an empty table is falsy. */
  predicate TreeTruthy(t: Tree)
  {
    match t
    case Leaf(v) => Truthy(v)
    case Node(m) => |m| > 0
  }

  /** The value stored at a path, if every step of the path is a table holding the next name. */
  function Lookup(t: Tree, path: seq<string>): Option<Tree>
  {
    if |path| == 0 then Some(t)
    else match t
      case Leaf(_) => None
      case Node(m) => if path[0] in m then Lookup(m[path[0]], path[1..]) else None
  }

  // ---------------------------------------------------------------------------
  // get

  /** Where the walk of `get` ends: a truthy value, an absent or falsy step, or an exception. */
  datatype Reach = Found(t: Tree) | Absent | Fails(e: Error)

  /** The loop of `get`: `d = d.get(k, None)` for each name, stopping at the first falsy step. */
  function Walk(d: Tree, keys: seq<string>): Reach
  {
    if |keys| == 0 then Found(d)
    else match d
      case Leaf(_) => Fails(AttributeError)
      case Node(m) =>
        if keys[0] in m && TreeTruthy(m[keys[0]]) then Walk(m[keys[0]], keys[1..]) else Absent
  }

  /**
   * `get(key, default)`: the result and, when `get` called `set`, the table that
   * set stored (None when the table is left as it was).
   */
  function GetSpec(config: Table, key: string, default: Tree): (Result<Tree, Error>, Option<Table>)
  {
    match Walk(Node(config), Split(key, '.'))
    case Found(t) => (Ok(t), None)
    case Fails(e) => (Err(e), None)
    case Absent =>
      if !TreeTruthy(default) then (Ok(default), None)
      else match SetPath(config, Split(key, '.'), default)
        case Ok(m) => (Ok(default), Some(m))
        case Err(e) => (Err(e), None)
  }

  // ---------------------------------------------------------------------------
  // set

  /**
   * The table after `set(keys joined by ".", value)`: every missing intermediate
   * name becomes an empty table, the last name is assigned.
   */
  function SetPath(m: Table, keys: seq<string>, value: Tree): Result<Table, Error>
    requires |keys| >= 1
    decreases |keys|
  {
    if |keys| == 1 then Ok(m[keys[0] := value])
    else
      var d2 := if keys[0] in m then m[keys[0]] else Node(map[]);
      match d2
      case Leaf(_) => Err(if |keys| == 2 then TypeError else AttributeError)
      case Node(inner) =>
        match SetPath(inner, keys[1..], value)
        case Ok(r) => Ok(m[keys[0] := Node(r)])
        case Err(e) => Err(e)
  }

  /** Wraps the table set at depth i back into the tables of the chain above it, innermost first. */
  ghost function Nest(chain: seq<Table>, keys: seq<string>, i: nat, r: Result<Table, Error>): Result<Table, Error>
    requires i <= |chain| && i <= |keys|
  {
    if i == 0 then r
    else Nest(chain, keys, i - 1, if r.Ok? then Ok(chain[i - 1][keys[i - 1] := Node(r.value)]) else r)
  }

  lemma {:induction false} NestErr(chain: seq<Table>, keys: seq<string>, i: nat, e: Error)
    requires i <= |chain| && i <= |keys|
    ensures Nest(chain, keys, i, Err(e)) == Err(e)
  {
    if i > 0 {
      NestErr(chain, keys, i - 1, e);
    }
  }

  lemma {:induction false} NestExtend(chain: seq<Table>, x: Table, keys: seq<string>, i: nat, r: Result<Table, Error>)
    requires i <= |chain| && i <= |keys|
    ensures Nest(chain + [x], keys, i, r) == Nest(chain, keys, i, r)
  {
    if i > 0 {
      var chain' := chain + [x];
      assert chain'[i - 1] == chain[i - 1];
      NestExtend(chain, x, keys, i - 1, if r.Ok? then Ok(chain[i - 1][keys[i - 1] := Node(r.value)]) else r);
    }
  }

  /**
   * The loop of `set` over `keys[:-1]`: `chain[i]` is the table `d` stands for
   * after i steps. It stops with the error Python raises at a non-table value.
   */
  method Descend(root: Table, keys: seq<string>, value: Tree) returns (chain: seq<Table>, e: Option<Error>)
    requires |keys| >= 1
    ensures e.Some? ==> SetPath(root, keys, value) == Err(e.value)
    ensures e.None? ==> |chain| == |keys|
    ensures e.None? ==>
      SetPath(root, keys, value) == Nest(chain, keys, |keys| - 1, Ok(chain[|keys| - 1][keys[|keys| - 1] := value]))
  {
    chain := [root];
    var i := 0;
    while i < |keys| - 1
      invariant 0 <= i <= |keys| - 1 && |chain| == i + 1
      invariant SetPath(root, keys, value) == Nest(chain, keys, i, SetPath(chain[i], keys[i..], value))
    {
      var d := chain[i];
      var k := keys[i];
      var d2 := if k in d then d[k] else Node(map[]);
      assert keys[i..][0] == k && keys[i..][1..] == keys[i + 1..];
      if d2.Leaf? {
        NestErr(chain, keys, i, if i + 1 < |keys| - 1 then AttributeError else TypeError);
        return chain, Some(if i + 1 < |keys| - 1 then AttributeError else TypeError);
      }
      NestExtend(chain, d2.m, keys, i, SetPath(chain[i], keys[i..], value));
      chain := chain + [d2.m];
      i := i + 1;
    }
    assert keys[i..] == [keys[i]];
    e := None;
  }

  /**
   * `d[keys[-1]] = value` lands in the table `d` aliases; with tables as
   * values, the changed table is written back into each enclosing one.
   */
  method WriteBack(chain: seq<Table>, keys: seq<string>, last: Table) returns (inner: Table)
    requires 1 <= |keys| && |chain| == |keys|
    ensures Nest(chain, keys, |keys| - 1, Ok(last)) == Ok(inner)
  {
    inner := last;
    var i := |keys| - 1;
    while i > 0
      invariant 0 <= i < |chain|
      invariant Nest(chain, keys, |keys| - 1, Ok(last)) == Nest(chain, keys, i, Ok(inner))
    {
      inner := chain[i - 1][keys[i - 1] := Node(inner)];
      i := i - 1;
    }
  }

  class Config {
    /** `self.config`. */
    var config: Table
    /** The tables written by `save`, oldest first. */
    var saved: seq<Table>

    /** A store holding the table a loaded settings file gave. */
    constructor(loaded: Table)
      ensures config == loaded && saved == []
    {
      config := loaded;
      saved := [];
    }

    /** `save`: the table goes to the settings file. */
    method Save()
      modifies this
      ensures config == old(config) && saved == old(saved) + [config]
    {
      saved := saved + [config];
    }

    /** `set(key, value)`. */
    method Set(key: string, value: Tree) returns (r: Result<(), Error>)
      modifies this
      ensures SetPath(old(config), Split(key, '.'), value).Ok? ==>
        r == Ok(()) && config == SetPath(old(config), Split(key, '.'), value).value && saved == old(saved) + [config]
      ensures SetPath(old(config), Split(key, '.'), value).Err? ==>
        r == Err(SetPath(old(config), Split(key, '.'), value).error) && config == old(config) && saved == old(saved)
    {
      var keys := Split(key, '.');
      var chain, e := Descend(config, keys, value);
      if e.Some? {
        return Err(e.value);
      }
      var inner := WriteBack(chain, keys, chain[|keys| - 1][keys[|keys| - 1] := value]);
      config := inner;
      Save();
      r := Ok(());
    }

    /** `get(key, default)`. */
    method Get(key: string, default: Tree) returns (r: Result<Tree, Error>)
      modifies this
      ensures r == GetSpec(old(config), key, default).0
      ensures var stored := GetSpec(old(config), key, default).1;
        if stored.Some? then config == stored.value && saved == old(saved) + [config]
        else config == old(config) && saved == old(saved)
    {
      var keys := Split(key, '.');
      var d := Node(config);
      var i := 0;
      while i < |keys|
        invariant 0 <= i <= |keys|
        invariant Walk(Node(config), keys) == Walk(d, keys[i..])
        invariant config == old(config) && saved == old(saved)
      {
        assert keys[i..][0] == keys[i] && keys[i..][1..] == keys[i + 1..];
        if d.Leaf? {
          r := Err(AttributeError);
          return;
        }
        d := if keys[i] in d.m then d.m[keys[i]] else Leaf(VNone);
        if !TreeTruthy(d) {
          if TreeTruthy(default) {
            var s := Set(key, default);
            if s.Err? {
              r := Err(s.error);
              return;
            }
          }
          r := Ok(default);
          return;
        }
        i := i + 1;
      }
      r := Ok(d);
    }
  }

  // ---------------------------------------------------------------------------
  // What set and get promise

  /** A table `set` produced holds the name it assigned, so it is truthy. */
  lemma SetPathHasKey(m: Table, keys: seq<string>, value: Tree)
    requires |keys| >= 1 && SetPath(m, keys, value).Ok?
    ensures keys[0] in SetPath(m, keys, value).value
  {
  }

  /** Set puts the value at its path, creating the tables on the way. */
  lemma {:induction false} SetThenLookup(m: Table, keys: seq<string>, value: Tree)
    requires |keys| >= 1 && SetPath(m, keys, value).Ok?
    ensures Lookup(Node(SetPath(m, keys, value).value), keys) == Some(value)
    decreases |keys|
  {
    var m' := SetPath(m, keys, value).value;
    if |keys| > 1 {
      var d2 := if keys[0] in m then m[keys[0]] else Node(map[]);
      SetThenLookup(d2.m, keys[1..], value);
    }
  }

  /** A truthy value set at a path is what the walk of `get` finds there. */
  lemma {:induction false} SetThenWalk(m: Table, keys: seq<string>, value: Tree)
    requires |keys| >= 1 && SetPath(m, keys, value).Ok? && TreeTruthy(value)
    ensures Walk(Node(SetPath(m, keys, value).value), keys) == Found(value)
    decreases |keys|
  {
    if |keys| > 1 {
      var d2 := if keys[0] in m then m[keys[0]] else Node(map[]);
      SetThenWalk(d2.m, keys[1..], value);
      SetPathHasKey(d2.m, keys[1..], value);
    }
  }

  /** After `set(key, v)` with v truthy, `get(key, default)` returns v and changes nothing. */
  lemma GetAfterSet(m: Table, key: string, value: Tree, default: Tree)
    requires SetPath(m, Split(key, '.'), value).Ok? && TreeTruthy(value)
    ensures GetSpec(SetPath(m, Split(key, '.'), value).value, key, default) == (Ok(value), None)
  {
    SetThenWalk(m, Split(key, '.'), value);
  }

  /** A path that leaves the key's path at some name reads the same after `set` as before. */
  lemma {:induction false} SetKeepsOthers(m: Table, keys: seq<string>, value: Tree, path: seq<string>, i: nat)
    requires |keys| >= 1 && SetPath(m, keys, value).Ok?
    requires i < |path| && i < |keys| && path[..i] == keys[..i] && path[i] != keys[i]
    ensures Lookup(Node(SetPath(m, keys, value).value), path) == Lookup(Node(m), path)
    decreases |keys|
  {
    var m' := SetPath(m, keys, value).value;
    if i > 0 {
      assert path[0] == keys[0];
      var d2 := if keys[0] in m then m[keys[0]] else Node(map[]);
      assert path[1..][..i - 1] == keys[1..][..i - 1];
      SetKeepsOthers(d2.m, keys[1..], value, path[1..], i - 1);
      if keys[0] !in m {
        EmptyLookup(path[1..]);
      }
    }
  }

  lemma EmptyLookup(path: seq<string>)
    requires |path| > 0
    ensures Lookup(Node(map[]), path) == None
  {
  }

  /**
   * Set fails exactly when one of the key's proper prefixes already names a scalar,
   * and then with `TypeError` when that is the last table before the final name.
   */
  lemma {:induction false} SetFails(m: Table, keys: seq<string>, value: Tree)
    requires |keys| >= 1
    ensures SetPath(m, keys, value).Err? <==>
      exists i :: 1 <= i < |keys| && Lookup(Node(m), keys[..i]).Some? && Lookup(Node(m), keys[..i]).value.Leaf?
    decreases |keys|
  {
    if |keys| > 1 {
      var k := keys[0];
      var d2 := if k in m then m[k] else Node(map[]);
      assert keys[..1] == [k];
      assert Lookup(Node(m), keys[..1]) == if k in m then Some(m[k]) else None;
      if d2.Node? {
        SetFails(d2.m, keys[1..], value);
        forall i | 2 <= i < |keys|
          ensures Lookup(Node(m), keys[..i]) == Lookup(d2, keys[1..][..i - 1])
        {
          assert keys[..i][1..] == keys[1..][..i - 1];
          if k !in m {
            EmptyLookup(keys[1..][..i - 1]);
          }
        }
        if SetPath(m, keys, value).Err? {
          var j :| 1 <= j < |keys| - 1 && Lookup(Node(d2.m), keys[1..][..j]).Some? && Lookup(Node(d2.m), keys[1..][..j]).value.Leaf?;
          assert Lookup(Node(m), keys[..j + 1]) == Lookup(d2, keys[1..][..j]);
        }
        if exists i :: 1 <= i < |keys| && Lookup(Node(m), keys[..i]).Some? && Lookup(Node(m), keys[..i]).value.Leaf? {
          var i :| 1 <= i < |keys| && Lookup(Node(m), keys[..i]).Some? && Lookup(Node(m), keys[..i]).value.Leaf?;
          assert i >= 2;
          assert Lookup(Node(d2.m), keys[1..][..i - 1]) == Lookup(Node(m), keys[..i]);
        }
      }
    }
  }

  /** A get that finds its key, or whose default is falsy, leaves the table alone. */
  lemma GetLeavesAlone(config: Table, key: string, default: Tree)
    requires Walk(Node(config), Split(key, '.')).Found? || !TreeTruthy(default)
    ensures GetSpec(config, key, default).1 == None
    ensures Walk(Node(config), Split(key, '.')).Found? ==> GetSpec(config, key, default).0 == Ok(Walk(Node(config), Split(key, '.')).t)
  {
  }

  /** A get that misses its key with a truthy default stores it, and a second get returns it without storing again. */
  lemma GetStoresDefault(config: Table, key: string, default: Tree, other: Tree)
    requires Walk(Node(config), Split(key, '.')).Absent? && TreeTruthy(default)
    requires SetPath(config, Split(key, '.'), default).Ok?
    ensures GetSpec(config, key, default).0 == Ok(default)
    ensures var stored := GetSpec(config, key, default).1;
      stored.Some? && GetSpec(stored.value, key, other) == (Ok(default), None)
  {
    GetAfterSet(config, key, default, other);
  }
}
