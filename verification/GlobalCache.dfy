/** Global variables behind inline caches: every load or store instruction remembers the
    slot it found and the version of the map at that time, and looks again only when the
    version has changed. */
module GlobalCache {
  import opened Syntax
  import opened Values
  import opened Hashing
  import opened HashMap

  /** An instruction: the code it is in (None for the module body) and its address. */
  datatype Site = Site(code: Option<nat>, ip: nat)

  /** A cache of an instruction; version 0 means that it is empty. */
  datatype Cache = Cache(version: nat, index: nat)

  const EMPTY: Cache := Cache(0, 0)

  /** What the instructions do to the globals of a module. */
  datatype Action = Load(at: Site) | Declare(name: Name) | Store(at: Site, v: Value)

  /** The reference: a lookup by name each time.  Stores to undeclared names are lost. */
  function Lookup(globals: map<Name, Value>, name: Name): Option<Value> {
    if name in globals then Some(globals[name]) else None
  }

  function Stored(globals: map<Name, Value>, name: Name, v: Value): map<Name, Value> {
    if name in globals then globals[name := v] else globals
  }

  /** A whole run without caches: the globals at the end, and what each load gave. */
  function Uncached(names: Site -> Name, globals: map<Name, Value>, run: seq<Action>): (map<Name, Value>, seq<Option<Value>>) {
    if run == [] then (globals, [])
    else
      var (before, seen) := Uncached(names, globals, run[..|run| - 1]);
      match run[|run| - 1]
      case Load(at) => (before, seen + [Lookup(before, names(at))])
      case Declare(name) => (before[name := NullV], seen)
      case Store(at, v) => (Stored(before, names(at), v), seen)
  }

  class Globals {
    const names: Site -> Name
    const table: HashMap<Value>
    var caches: map<Site, Cache>

    /** A cache of the current version has the slot of its instruction's name. */
    ghost predicate Current(es: seq<Entry<Value>>, version: nat)
      reads this
    {
      forall at :: at in caches ==>
                     && caches[at].version <= version
                     && (caches[at].version == version ==>
                           && caches[at].index < |es|
                           && es[caches[at].index].Used?
                           && es[caches[at].index].key == names(at))
    }

    ghost predicate Valid()
      reads this, table, table.entries
    {
      table.Valid() && Current(table.entries[..], table.version)
    }

    ghost function Contents(): map<Name, Value>
      reads this, table
    {
      table.contents
    }

    constructor (hash: nat -> nat, names: Site -> Name)
      ensures Valid() && fresh(table) && fresh(table.entries)
      ensures Contents() == map[] && this.names == names
    {
      table := new HashMap<Value>(hash);
      this.names := names;
      caches := map[];
    }

    function CacheAt(at: Site): Cache
      reads this
    {
      if at in caches then caches[at] else EMPTY
    }

    /** The slot of a name is remembered for this instruction. */
    method Remember(at: Site, idx: nat)
      requires Valid() && idx < table.size && table.entries[idx].Used? && table.entries[idx].key == names(at)
      modifies this
      ensures Valid() && Contents() == old(Contents())
    {
      caches := caches[at := Cache(table.Version(), idx)];
    }

    method LoadGlobal(at: Site) returns (value: Option<Value>)
      requires Valid()
      modifies this
      ensures Valid() && Contents() == old(Contents())
      ensures value == Lookup(Contents(), names(at))
    {
      var ic := CacheAt(at);
      if ic.version != 0 && ic.version == table.Version() {
        var v := table.GetIndex(ic.index);
        return Some(v);
      }
      var idx, empty, _ := table.Find(names(at));
      if empty {
        return None;
      }
      var v := table.GetIndex(idx);
      Remember(at, idx);
      return Some(v);
    }

    /** A global set without an instruction, as the intrinsics of a module are. */
    method Define(name: Name, value: Value)
      requires Valid()
      modifies this, table, table.entries
      ensures Valid() && Contents() == old(Contents())[name := value]
      ensures table.entries == old(table.entries) || fresh(table.entries)
    {
      table.Set(name, value);
    }

    method DeclareGlobal(name: Name)
      requires Valid()
      modifies this, table, table.entries
      ensures Valid() && Contents() == old(Contents())[name := NullV]
      ensures table.entries == old(table.entries) || fresh(table.entries)
    {
      Define(name, NullV);
    }

    method Get(name: Name) returns (value: Option<Value>)
      requires Valid()
      ensures value == Lookup(Contents(), name)
    {
      value := table.Get(name);
    }

    method StoreGlobal(at: Site, v: Value)
      requires Valid()
      modifies this, table, table.entries
      ensures Valid() && Contents() == Stored(old(Contents()), names(at), v)
      ensures table.entries == old(table.entries)
    {
      var ic := CacheAt(at);
      if ic.version != 0 && ic.version == table.Version() {
        table.SetIndex(ic.index, v);
      } else {
        var idx, empty, _ := table.Find(names(at));
        if !empty {
          Remember(at, idx);
          table.SetIndex(idx, v);
        }
      }
    }

    /** Any sequence of declarations, loads and stores, from any state of the caches. */
    method RunActions(run: seq<Action>) returns (seen: seq<Option<Value>>)
      requires Valid()
      modifies this, table, table.entries
      ensures Valid() && (Contents(), seen) == Uncached(names, old(Contents()), run)
      ensures table.entries == old(table.entries) || fresh(table.entries)
    {
      seen := [];
      for i := 0 to |run|
        invariant Valid() && (table.entries == old(table.entries) || fresh(table.entries))
        invariant (Contents(), seen) == Uncached(names, old(Contents()), run[..i])
      {
        assert run[..i + 1][..i] == run[..i];
        match run[i] {
          case Load(at) =>
            var value := LoadGlobal(at);
            seen := seen + [value];
          case Declare(name) =>
            DeclareGlobal(name);
          case Store(at, v) =>
            StoreGlobal(at, v);
        }
      }
      assert run[..|run|] == run;
    }
  }
}
