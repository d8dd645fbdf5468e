/** The native hash map: linear probing in an array that doubles when it is full, and a
    version number that tells users of a slot index when all indices have changed. */
module HashMap {
  import opened Syntax
  import opened Hashing

  const INITIAL_SIZE: nat := 64
  const MAX_LOAD_FACTOR: real := 0.75

  /** What holders of an index rely on between two moments of one version: the table has
      the same slots, and a used slot stays in use for its key. */
  ghost predicate Stable<V>(before: seq<Entry<V>>, after: seq<Entry<V>>) {
    |after| == |before| && forall i :: 0 <= i < |before| && before[i].Used? ==> after[i].Used? && after[i].key == before[i].key
  }

  /** The load test divides integers: it says "room" exactly below the full table. */
  lemma LoadTestIsFullness(entries: nat, size: nat)
    requires size > 0
    ensures (entries / size) as real < MAX_LOAD_FACTOR <==> entries < size
  {
    if entries < size {
      assert entries / size == 0;
    } else {
      assert entries / size >= 1;
    }
  }

  /** Copying one more entry: its key is new. */
  lemma CopyStep<V(!new)>(es: seq<Entry<V>>, hash: nat -> nat, i: nat, contents: map<nat, V>)
    requires Chained(es, hash) && i < |es| && Represents(es[..i], contents)
    ensures es[i].Free? ==> Represents(es[..i + 1], contents) && Count(es[..i + 1]) == Count(es[..i])
    ensures es[i].Used? ==>
              && es[i].key !in contents && Count(es[..i + 1]) == Count(es[..i]) + 1
              && Represents(es[..i + 1], contents[es[i].key := es[i].value])
  {
    var part, part1 := es[..i], es[..i + 1];
    assert part1[..i] == part && part1[i] == es[i];
    assert forall j :: 0 <= j < i ==> part1[j] == part[j];
    if es[i].Used? && es[i].key in contents {
      var j: nat :| j < i && part[j] == Used(es[i].key, contents[es[i].key]);
      Unique(es, hash, i, j);
      assert false;
    }
    var contents1 := if es[i].Used? then contents[es[i].key := es[i].value] else contents;
    forall k | k in contents1
      ensures exists j :: 0 <= j < |part1| && part1[j] == Used(k, contents1[k])
    {
      if k in contents {
        var j: nat :| j < i && part[j] == Used(k, contents[k]);
        assert part1[j] == Used(k, contents1[k]);
      }
    }
  }

  lemma NothingYet<V(!new)>(es: seq<Entry<V>>, contents: map<nat, V>)
    requires contents == map[]
    ensures Represents(es[..0], contents) && Count(es[..0]) == 0
  {
  }

  lemma SameContents<V(!new)>(es: seq<Entry<V>>, a: map<nat, V>, b: map<nat, V>)
    requires Represents(es, a) && Represents(es, b)
    ensures a == b
  {
  }

  class HashMap<V(!new)> {
    const hash: nat -> nat
    var size: nat
    var numEntries: nat
    var version: nat
    var entries: array<Entry<V>>
    ghost var contents: map<nat, V>

    /** The map is well formed but may be full. */
    ghost predicate Formed()
      reads this, entries
    {
      && entries.Length == size && size > 0 && PowerOfTwo(size) && version > 0
      && numEntries == Count(entries[..])
      && Chained(entries[..], hash)
      && Represents(entries[..], contents)
    }

    ghost predicate Valid()
      reads this, entries
    {
      Formed() && numEntries < size
    }

    constructor (hash: nat -> nat)
      ensures Valid() && fresh(entries)
      ensures this.hash == hash && contents == map[] && version == 1 && size == INITIAL_SIZE && numEntries == 0
    {
      this.hash := hash;
      entries := new Entry<V>[INITIAL_SIZE](_ => Free);
      size := INITIAL_SIZE;
      numEntries := 0;
      version := 1;
      contents := map[];
      new;
      assert INITIAL_SIZE == Pow2(6);
      CountBound(entries[..]);
    }

    /** Probing from the home slot to the key or the first free slot; `d` steps. */
    method Find(key: nat) returns (idx: nat, empty: bool, ghost d: nat)
      requires Valid()
      ensures idx < size && d < size && idx == Slot(hash(key), size, d) && Passed(entries[..], hash, key, d)
      ensures empty ==> key !in contents && entries[idx].Free?
      ensures !empty ==> key in contents && entries[idx] == Used(key, contents[key])
    {
      idx := hash(key);
      d := 0;
      ghost var es := entries[..];
      ghost var room := FreeSlotAhead(es, hash(key));
      WrapIsSlot(hash(key), size, 0);
      while entries[Wrap(idx, size)].Used?
        invariant es == entries[..] && d <= room < size && idx == hash(key) + d
        invariant Passed(es, hash, key, d)
        invariant Wrap(idx, size) == Slot(hash(key), size, d)
        decreases room - d
      {
        if entries[Wrap(idx, size)].key == key {
          return Wrap(idx, size), false, d;
        }
        assert es[Slot(hash(key), size, d)].Used?;
        d := d + 1;
        WrapIsSlot(hash(key), size, d);
        idx := idx + 1;
      }
      NotThere(es, hash, key, d);
      idx, empty := Wrap(idx, size), true;
    }

    method Get(key: nat) returns (value: Option<V>)
      requires Valid()
      ensures value == if key in contents then Some(contents[key]) else None
    {
      var idx, empty, _ := Find(key);
      value := if empty then None else Some(entries[idx].value);
    }

    /** An empty table twice as large, of the next version. */
    method Renew()
      requires size > 0 && PowerOfTwo(size)
      modifies this
      ensures Valid() && fresh(entries) && numEntries == 0 && contents == map[]
      ensures size == 2 * old(size) && version == old(version) + 1
    {
      DoublePower(size);
      size := 2 * size;
      entries := new Entry<V>[size](_ => Free);
      numEntries := 0;
      version := version + 1;
      contents := map[];
      CountBound(entries[..]);
    }

    /** A full table is replaced by one twice as large, and every entry is set again. */
    method MaybeGrow()
      requires Formed() && numEntries <= size
      modifies this, entries
      ensures Valid() && contents == old(contents) && numEntries == old(numEntries)
      ensures old(numEntries) < old(size) ==>
                entries == old(entries) && entries[..] == old(entries[..]) && size == old(size) && version == old(version)
      ensures old(numEntries) >= old(size) ==>
                fresh(entries) && size == 2 * old(size) && version == old(version) + 1
      decreases if numEntries < size then 0 else 1, 0
    {
      LoadTestIsFullness(numEntries, size);
      if (numEntries / size) as real < MAX_LOAD_FACTOR {
        return;
      }
      var oldEntries, oldSize := entries, size;
      ghost var es, all := entries[..], contents;
      CountBound(es);
      Renew();
      hide Chained, Represents, Passed;
      NothingYet(es, contents);
      for i := 0 to oldSize
        invariant Valid() && fresh(entries) && entries != oldEntries && oldEntries[..] == es
        invariant size == 2 * oldSize && |es| == oldSize && version == old(version) + 1
        invariant numEntries == Count(es[..i]) <= i
        invariant Represents(es[..i], contents)
      {
        var entry := oldEntries[i];
        CopyStep(es, hash, i, contents);
        if entry.Used? {
          Set(entry.key, entry.value);
        }
      }
      assert es[..oldSize] == es;
      SameContents(es, all, contents);
    }

    method IncNumEntries()
      requires Count(entries[..]) == numEntries + 1 <= size
      requires entries.Length == size > 0 && PowerOfTwo(size) && version > 0 && Chained(entries[..], hash) && Represents(entries[..], contents)
      modifies this, entries
      ensures Valid() && contents == old(contents) && numEntries == old(numEntries) + 1
      ensures old(numEntries) + 1 < old(size) ==>
                entries == old(entries) && entries[..] == old(entries[..]) && size == old(size) && version == old(version)
      ensures old(numEntries) + 1 >= old(size) ==>
                fresh(entries) && size == 2 * old(size) && version == old(version) + 1
      decreases if numEntries + 1 < size then 0 else 1, 1
    {
      numEntries := numEntries + 1;
      MaybeGrow();
    }

    method Set(key: nat, value: V)
      requires Valid()
      modifies this, entries
      ensures Valid() && contents == old(contents)[key := value]
      ensures numEntries == old(numEntries) + if key in old(contents) then 0 else 1
      ensures key !in old(contents) && old(numEntries) + 1 == old(size) ==>
                fresh(entries) && size == 2 * old(size) && version == old(version) + 1
      ensures key in old(contents) || old(numEntries) + 1 < old(size) ==>
                entries == old(entries) && size == old(size) && version == old(version) && Stable(old(entries[..]), entries[..])
      decreases if numEntries + 1 < size then 0 else 1, 2
    {
      hide Chained, Represents, Passed, Count;
      MaybeGrow();
      var idx, empty, d := Find(key);
      ghost var es := entries[..];
      if empty {
        Inserted(es, hash, contents, key, value, d);
        entries[idx] := Used(key, value);
        assert entries[..] == es[idx := Used(key, value)];
        contents := contents[key := value];
        IncNumEntries();
      } else {
        Replaced(es, hash, contents, idx, value);
        entries[idx] := Used(key, value);
        assert entries[..] == es[idx := Used(key, value)];
        contents := contents[key := value];
      }
    }

    function Version(): (v: nat)
      requires Valid()
      reads this, entries
      ensures v > 0
    {
      version
    }

    method GetIndex(index: nat) returns (value: V)
      requires Valid() && index < size && entries[index].Used?
      ensures entries[index].key in contents && value == contents[entries[index].key]
    {
      value := entries[index].value;
    }

    method SetIndex(index: nat, value: V)
      requires Valid() && index < size && entries[index].Used?
      modifies this, entries
      ensures Valid() && contents == old(contents)[old(entries[index].key) := value]
      ensures entries == old(entries) && size == old(size) && version == old(version) && numEntries == old(numEntries)
      ensures Stable(old(entries[..]), entries[..])
    {
      ghost var es := entries[..];
      Replaced(es, hash, contents, index, value);
      entries[index] := Used(entries[index].key, value);
      assert entries[..] == es[index := Used(es[index].key, value)];
      contents := contents[es[index].key := value];
    }
  }
}
