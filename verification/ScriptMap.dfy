/** The hash map of the script library: probing over buckets and tombstones, with the
    live buckets threaded in a doubly linked list in the order of insertion. */
module ScriptMap {
  import opened Syntax
  import opened Hashing

  const LOAD_FACTOR: real := 0.7

  class Bucket<V> {
    const key: nat
    var value: V
    var prev: Bucket?<V>
    var next: Bucket?<V>

    constructor (key: nat, value: V, prev: Bucket?<V>)
      ensures this.key == key && this.value == value && this.prev == prev && next == null
    {
      this.key, this.value, this.prev, next := key, value, prev, null;
    }
  }

  datatype Cell<V> = Empty | Tombstone | Live(b: Bucket<V>)

  // ----- the reference: pairs in the order of first insertion -----

  function IndexOf<V>(items: seq<(nat, V)>, key: nat): (i: nat)
    ensures i <= |items| && (i < |items| ==> items[i].0 == key)
    ensures forall j :: 0 <= j < i ==> items[j].0 != key
  {
    if items == [] || items[0].0 == key then 0 else 1 + IndexOf(items[1..], key)
  }

  function Put<V>(items: seq<(nat, V)>, key: nat, value: V): seq<(nat, V)> {
    var i := IndexOf(items, key);
    if i < |items| then items[i := (key, value)] else items + [(key, value)]
  }

  function Lookup<V>(items: seq<(nat, V)>, key: nat): Option<V> {
    var i := IndexOf(items, key);
    if i < |items| then Some(items[i].1) else None
  }

  /** All pairs put into an empty map again. */
  function Rebuilt<V>(items: seq<(nat, V)>): seq<(nat, V)> {
    if items == [] then []
    else
      var n := |items| - 1;
      Put(Rebuilt(items[..n]), items[n].0, items[n].1)
  }

  ghost predicate Distinct<V(!new)>(items: seq<(nat, V)>) {
    forall i, j :: 0 <= i < j < |items| ==> items[i].0 != items[j].0
  }

  lemma {:induction false} RebuiltIsSame<V(!new)>(items: seq<(nat, V)>)
    requires Distinct(items)
    ensures Rebuilt(items) == items
  {
    if items != [] {
      RebuiltIsSame(items[..|items| - 1]);
    }
  }

  lemma {:induction false} RebuiltIsShort<V>(items: seq<(nat, V)>)
    ensures |Rebuilt(items)| <= |items|
  {
    if items != [] {
      RebuiltIsShort(items[..|items| - 1]);
    }
  }

  lemma RebuiltStart<V>(items: seq<(nat, V)>)
    ensures Rebuilt(items[..0]) == []
  {
  }

  lemma RebuiltNext<V>(items: seq<(nat, V)>, n: nat)
    requires n < |items|
    ensures Rebuilt(items[..n + 1]) == Put(Rebuilt(items[..n]), items[n].0, items[n].1)
    ensures |Rebuilt(items[..n])| <= n && |Rebuilt(items[..n + 1])| <= n + 1
  {
    assert items[..n + 1][..n] == items[..n];
    RebuiltIsShort(items[..n]);
    RebuiltIsShort(items[..n + 1]);
  }

  /** The place of the last pair with a key. */
  function LastOf<V>(items: seq<(nat, V)>, key: nat): (i: int)
    ensures -1 <= i < |items| && (i >= 0 ==> items[i].0 == key)
    ensures forall j :: i < j < |items| ==> items[j].0 != key
  {
    if items == [] then -1
    else if items[|items| - 1].0 == key then |items| - 1
    else LastOf(items[..|items| - 1], key)
  }

  lemma {:induction false} IndexOfMore<V>(items: seq<(nat, V)>, x: (nat, V), key: nat)
    ensures IndexOf(items + [x], key) ==
            if IndexOf(items, key) < |items| then IndexOf(items, key) else if x.0 == key then |items| else |items| + 1
  {
    if items != [] && items[0].0 != key {
      assert (items + [x])[1..] == items[1..] + [x];
      IndexOfMore(items[1..], x, key);
    }
  }

  lemma {:induction false} IndexOfUpdate<V>(items: seq<(nat, V)>, i: nat, value: V, key: nat)
    requires i < |items|
    ensures IndexOf(items[i := (items[i].0, value)], key) == IndexOf(items, key)
  {
    var items1 := items[i := (items[i].0, value)];
    if items[0].0 != key && i > 0 {
      assert items1[1..] == items[1..][i - 1 := (items[1..][i - 1].0, value)];
      IndexOfUpdate(items[1..], i - 1, value, key);
    } else if items[0].0 != key {
      assert items1[1..] == items[1..];
    }
  }

  /** Putting all pairs of a sequence gives each key once, with its latest value. */
  lemma {:induction false} LatestValues<V(!new)>(items: seq<(nat, V)>, key: nat)
    ensures var i := LastOf(items, key); Lookup(Rebuilt(items), key) == if i >= 0 then Some(items[i].1) else None
  {
    if items != [] {
      var n := |items| - 1;
      var before := Rebuilt(items[..n]);
      LatestValues(items[..n], key);
      var i := IndexOf(before, items[n].0);
      if i < |before| {
        IndexOfUpdate(before, i, items[n].1, key);
      } else {
        IndexOfMore(before, items[n], key);
      }
    }
  }

  /** And the keys come in the order in which they were first put. */
  lemma {:induction false} FirstInsertionOrder<V(!new)>(items: seq<(nat, V)>)
    ensures var r := Rebuilt(items);
            && Distinct(r)
            && (forall i :: 0 <= i < |r| ==> IndexOf(items, r[i].0) < |items|)
            && (forall i, j :: 0 <= i < j < |r| ==> IndexOf(items, r[i].0) < IndexOf(items, r[j].0))
  {
    if items != [] {
      var n := |items| - 1;
      var before, r := Rebuilt(items[..n]), Rebuilt(items);
      FirstInsertionOrder(items[..n]);
      assert items == items[..n] + [items[n]];
      forall i | 0 <= i < |r|
        ensures IndexOf(items, r[i].0) == if i < |before| then IndexOf(items[..n], before[i].0) else n
      {
        IndexOfMore(items[..n], items[n], r[i].0);
        if i == |before| {
          LatestValues(items[..n], items[n].0);
          FirstIffLast(items[..n], items[n].0);
        }
      }
    }
  }

  lemma FirstIffLast<V>(items: seq<(nat, V)>, key: nat)
    ensures IndexOf(items, key) < |items| <==> LastOf(items, key) >= 0
  {
  }

  /** The load test divides integers here as well. */
  lemma LoadTest(load: nat, cap: nat)
    requires cap > 0
    ensures (load / cap) as real > LOAD_FACTOR <==> load >= cap
  {
    if load < cap {
      assert load / cap == 0;
    } else {
      assert load / cap >= 1;
    }
  }

  /** `next_hash` goes to the next slot of the probe sequence. */
  lemma NextSlot(hash: nat, d: nat, cap: nat)
    requires d < cap
    ensures var next := (Slot(hash, cap, d) + 1) % cap; next < cap && (d + 1 < cap ==> next == Slot(hash, cap, d + 1))
  {
    var home := Wrap(hash, cap);
    var i := Slot(hash, cap, d) + 1;
    if i < cap {
      ModIs(i, cap, 0, i);
    } else {
      ModIs(i, cap, 1, 0);
    }
  }

  /** What a search ends with; without empty slots it may not end. */
  datatype Search<V> = Found(slot: nat, b: Bucket<V>) | Missing | Forever

  datatype Answer<V> = Value(v: V) | Absent | Endless

  class HashMap<V(!new)> {
    const hash: nat -> nat
    var cap: nat
    var load: nat
    var buckets: array<Cell<V>>
    var first: Bucket?<V>
    var last: Bucket?<V>
    /** The live buckets in list order, and their slots. */
    ghost var order: seq<Bucket<V>>
    ghost var slots: seq<nat>

    ghost function Nodes(): set<object>
      reads this`order
    {
      set b | b in order
    }

    /** The node at a place of a list, null beyond its ends. */
    static ghost function At(nodes: seq<Bucket<V>>, i: int): Bucket?<V> {
      if 0 <= i < |nodes| then nodes[i] else null
    }

    ghost predicate Linked()
      reads this`order, this`first, this`last, Nodes()
    {
      && (forall i, j :: 0 <= i < j < |order| ==> order[i] != order[j])
      && (if order == [] then first == null && last == null else first == order[0] && last == order[|order| - 1])
      && (forall i {:trigger order[i].prev} :: 0 <= i < |order| ==> order[i].prev == At(order, i - 1))
      && (forall i {:trigger order[i].next} :: 0 <= i < |order| ==> order[i].next == At(order, i + 1))
    }

    /** Every node of the list has a slot, and every live slot a node. */
    ghost predicate Housed()
      reads this`order, this`slots, this`cap, this`buckets, buckets
    {
      && |slots| == |order| && buckets.Length == cap
      && (forall i :: 0 <= i < |order| ==> slots[i] < cap && buckets[slots[i]] == Live(order[i]))
      && (forall s :: 0 <= s < cap && buckets[s].Live? ==> s in slots)
    }

    /** The keys in their slots; a tombstone holds none. */
    ghost function Keys(): seq<Entry<()>>
      reads this`buckets, buckets
    {
      KeysOf(buckets[..])
    }

    static function KeysOf(cells: seq<Cell<V>>): seq<Entry<()>> {
      seq(|cells|, s requires 0 <= s < |cells| => KeyOf(cells[s]))
    }

    static function KeyOf(c: Cell<V>): Entry<()> {
      if c.Live? then Used(c.b.key, ()) else Free
    }

    ghost function Items(): seq<(nat, V)>
      reads this`order, Nodes()
    {
      PairsOf(order)
    }

    static ghost function PairsOf(bs: seq<Bucket<V>>): seq<(nat, V)>
      reads set b | b in bs
    {
      seq(|bs|, i requires 0 <= i < |bs| reads set b | b in bs => (bs[i].key, bs[i].value))
    }

    ghost predicate Formed()
      reads this, buckets, Nodes()
    {
      Linked() && Housed() && load == |order| == Count(Keys()) && cap > 0
    }

    ghost predicate Valid()
      reads this, buckets, Nodes()
    {
      Formed() && load < cap
    }

    /** Nothing has been deleted since the table was made: every key can be found. */
    ghost predicate Mapped()
      reads this, buckets
    {
      (forall s :: 0 <= s < buckets.Length ==> !buckets[s].Tombstone?) && Chained(Keys(), hash)
    }

    constructor (hash: nat -> nat, cap: nat)
      requires cap > 0
      ensures Valid() && Mapped() && Items() == [] && this.hash == hash && this.cap == cap && fresh(buckets)
    {
      this.hash, this.cap, load := hash, cap, 0;
      buckets := new Cell<V>[cap](_ => Empty);
      first, last, order, slots := null, null, [], [];
      new;
      CountBound(Keys());
    }

    /** `get`, `has` and `delete` pass over tombstones and stop at an empty slot.  After a
        whole turn the search is where it began, and goes on for ever. */
    method Find(key: nat) returns (r: Search<V>, d: nat)
      requires buckets.Length == cap > 0
      ensures r.Found? ==> r.slot < cap && buckets[r.slot] == Live(r.b) && r.b.key == key
      ensures r.Forever? <==> NeverStops(key)
      ensures r.Missing? ==> d < cap && buckets[Slot(hash(key), cap, d)] == Empty
      ensures r.Missing? ==> forall e :: 0 <= e < d ==> !Stops(key, Slot(hash(key), cap, e))
      ensures r.Missing? ==> Misses(key)
    {
      var hashed := Wrap(hash(key), cap);
      d := 0;
      while d < cap && buckets[hashed] != Empty && !(buckets[hashed].Live? && buckets[hashed].b.key == key)
        invariant d <= cap && hashed < cap && (d < cap ==> hashed == Slot(hash(key), cap, d))
        invariant forall e :: 0 <= e < d ==> !Stops(key, Slot(hash(key), cap, e))
        decreases cap - d
      {
        assert !Stops(key, Slot(hash(key), cap, d));
        NextSlot(hash(key), d, cap);
        hashed := (hashed + 1) % cap;
        d := d + 1;
      }
      if d == cap {
        forall s | 0 <= s < cap
          ensures !Stops(key, s)
        {
          var e := SlotVisited(hash(key), cap, s);
        }
        r := Forever;
      } else {
        assert Stops(key, hashed);
        r := if buckets[hashed] == Empty then Missing else Found(hashed, buckets[hashed].b);
      }
    }

    /** A search for the key comes to an empty slot. */
    ghost predicate Misses(key: nat)
      reads this, buckets
    {
      buckets.Length == cap > 0
      && exists d :: 0 <= d < cap && buckets[Slot(hash(key), cap, d)] == Empty && forall e :: 0 <= e < d ==> !Stops(key, Slot(hash(key), cap, e))
    }

    /** No slot ends a search for the key: none is empty and none has the key. */
    ghost predicate NeverStops(key: nat)
      reads this, buckets
    {
      forall s :: 0 <= s < buckets.Length ==> !Stops(key, s)
    }

    /** A search for the key ends at this slot. */
    ghost predicate Stops(key: nat, s: nat)
      requires s < buckets.Length
      reads this, buckets
    {
      buckets[s] == Empty || (buckets[s].Live? && buckets[s].b.key == key)
    }

    /** Going from the home slot, a slot without live bucket comes before the key. */
    ghost predicate Shadowed(key: nat)
      reads this, buckets
    {
      buckets.Length == cap > 0
      && exists d :: 0 <= d < cap && Passed(Keys(), hash, key, d) && !buckets[Slot(hash(key), cap, d)].Live?
    }

    /** `set` takes the first slot that is empty, a tombstone, or the key's own. */
    method FindPlace(key: nat) returns (slot: nat, d: nat)
      requires buckets.Length == cap > 0 && Count(Keys()) < cap
      ensures slot < cap && d < cap && slot == Slot(hash(key), cap, d)
      ensures Passed(Keys(), hash, key, d)
      ensures buckets[slot].Live? ==> buckets[slot].b.key == key
      ensures !buckets[slot].Live? <==> Shadowed(key)
    {
      var hashed := Wrap(hash(key), cap);
      ghost var room := FreeSlotAhead(Keys(), hash(key));
      d := 0;
      while buckets[hashed].Live? && buckets[hashed].b.key != key
        invariant d <= room < cap && hashed == Slot(hash(key), cap, d)
        invariant Passed(Keys(), hash, key, d)
        decreases room - d
      {
        assert Keys()[Slot(hash(key), cap, d)] == Used(buckets[hashed].b.key, ());
        NextSlot(hash(key), d, cap);
        hashed := (hashed + 1) % cap;
        d := d + 1;
      }
      slot := hashed;
      if buckets[slot].Live? {
        NotShadowed(key, d);
      }
    }

    lemma NotShadowed(key: nat, d: nat)
      requires d < buckets.Length == cap && Passed(Keys(), hash, key, d)
      requires KeyOf(buckets[Slot(hash(key), cap, d)]) == Used(key, ())
      ensures !Shadowed(key)
    {
      forall e | 0 <= e < cap && Passed(Keys(), hash, key, e)
        ensures buckets[Slot(hash(key), cap, e)].Live?
      {
        assert Keys()[Slot(hash(key), cap, d)] == Used(key, ());
        if e < d {
          assert Keys()[Slot(hash(key), cap, e)] == KeyOf(buckets[Slot(hash(key), cap, e)]);
        }
      }
    }

    /** The last node, or the start of an empty list, points to a new one. */
    method Link(b: Bucket<V>)
      requires Linked() && b !in order && b.prev == last && b.next == null
      modifies this`first, this`last, Nodes()
      ensures forall j :: 0 <= j < |order| ==> order[j].value == old(order[j].value)
      ensures Extended(order, first, last, b)
      ensures b.value == old(b.value)
    {
      if first == null {
        first, last := b, b;
      } else {
        last.next := b;
        last := b;
      }
    }

    /** A list whose last node points to one more. */
    static ghost predicate Extended(nodes: seq<Bucket<V>>, first: Bucket?<V>, last: Bucket?<V>, b: Bucket<V>)
      reads b, set b | b in nodes
    {
      && first == (if nodes == [] then b else nodes[0]) && last == b
      && b.prev == At(nodes, |nodes| - 1) && b.next == null
      && (forall j {:trigger nodes[j].prev} :: 0 <= j < |nodes| ==> nodes[j].prev == At(nodes, j - 1))
      && (forall j {:trigger nodes[j].next} :: 0 <= j < |nodes| ==> nodes[j].next == if j == |nodes| - 1 then b else At(nodes, j + 1))
    }

    lemma Longer(was: seq<Bucket<V>>, b: Bucket<V>)
      requires (forall j, k :: 0 <= j < k < |was| ==> was[j] != was[k]) && b !in was
      requires Extended(was, first, last, b) && order == was + [b]
      ensures Linked()
    {
      forall j: int | 0 <= j < |order|
        ensures order[j].prev == At(order, j - 1)
      {
        if j < |was| {
          assert order[j] == was[j] && was[j].prev == At(was, j - 1);
        }
      }
      forall j: int | 0 <= j < |order|
        ensures order[j].next == At(order, j + 1)
      {
        if j < |was| {
          assert order[j] == was[j] && was[j].next == if j == |was| - 1 then b else At(was, j + 1);
        }
      }
    }

    /** A new bucket at the end of the list. */
    method Thread(key: nat, value: V) returns (b: Bucket<V>)
      requires Linked()
      modifies this`first, this`last, this`order, Nodes()
      ensures Linked() && order == old(order) + [b] && fresh(b) && b.key == key
      ensures Items() == old(Items()) + [(key, value)]
    {
      ghost var was, items := order, Items();
      assert forall j, k :: 0 <= j < k < |was| ==> was[j] != was[k];
      b := new Bucket(key, value, last);
      assert b !in order;
      Link(b);
      hide Linked, Extended;
      order := order + [b];
      Longer(was, b);
      assert Items() == items + [(key, value)];
    }

    /** A key that was not there is put into a slot that is free. */
    method Append(slot: nat, key: nat, value: V)
      requires Formed() && slot < cap && !buckets[slot].Live?
      modifies this, buckets, Nodes()
      ensures Formed() && cap == old(cap) && buckets == old(buckets)
      ensures |order| == |old(order)| + 1 && fresh(order[|order| - 1]) && order[..|order| - 1] == old(order)
      ensures Items() == old(Items()) + [(key, value)]
      ensures buckets[slot].Live? && forall s :: 0 <= s < cap && s != slot ==> buckets[s] == old(buckets[s])
      ensures buckets[slot].b.key == key && Keys() == old(Keys())[slot := Used(key, ())]
    {
      hide Linked;
      ghost var keys := Keys();
      var b := Thread(key, value);
      assert (buckets as object) !in Nodes();
      buckets[slot] := Live(b);
      assert Linked();
      load := load + 1;
      slots := slots + [slot];
      CountUpdate(keys, slot, Used(key, ()));
      assert Keys() == keys[slot := Used(key, ())];
      assert Housed();
    }

    /** The place of a live slot in the list. */
    ghost method PlaceOf(slot: nat) returns (i: nat)
      requires Formed() && slot < cap && buckets[slot].Live?
      ensures i < |order| && slots[i] == slot && buckets[slot].b == order[i]
    {
      i :| 0 <= i < |slots| && slots[i] == slot;
    }

    /** A bucket gets another value. */
    method Revalue(b: Bucket<V>, value: V, ghost i: nat)
      requires Linked() && i < |order| && b == order[i]
      modifies b`value
      ensures Linked() && Items() == old(Items())[i := (b.key, value)]
    {
      ghost var items := Items();
      b.value := value;
      assert forall j :: 0 <= j < |order| && j != i ==> order[j] != b && order[j].value == old(order[j].value);
      assert Items() == items[i := (b.key, value)];
    }

    /** In a map without deletions a key is in one place of the list, and is there exactly
        when probing finds it. */
    lemma KeyIsAt(key: nat, i: nat)
      requires Formed() && Mapped() && i < |order| && order[i].key == key
      ensures IndexOf(Items(), key) == i
    {
      hide Chained, Linked, Housed;
      forall j | 0 <= j < i
        ensures order[j].key != key
      {
        if order[j].key == key {
          SameKey(i, j);
        }
      }
      assert forall j :: 0 <= j < i ==> Items()[j].0 != key;
      assert Items()[i].0 == key;
    }

    lemma SameKey(i: nat, j: nat)
      requires Formed() && Mapped() && i < |order| && j < |order| && order[i].key == order[j].key
      ensures i == j
    {
      hide Chained;
      assert Keys()[slots[i]] == Used(order[i].key, ()) && Keys()[slots[j]] == Used(order[j].key, ());
      Unique(Keys(), hash, slots[i], slots[j]);
    }

    lemma KeyIsNowhere(key: nat, d: nat)
      requires Formed() && Mapped() && d < cap && Passed(Keys(), hash, key, d) && Keys()[Slot(hash(key), cap, d)].Free?
      ensures IndexOf(Items(), key) == |Items()|
    {
      hide Linked;
      NotThere(Keys(), hash, key, d);
      forall j | 0 <= j < |order|
        ensures Items()[j].0 != key
      {
        assert Keys()[slots[j]] == Used(order[j].key, ());
      }
    }

    method Fill(slot: nat, key: nat, value: V, ghost d: nat)
      requires Valid() && d < cap && slot == Slot(hash(key), cap, d) && Passed(Keys(), hash, key, d) && !buckets[slot].Live?
      modifies this, buckets, Nodes()
      ensures Formed() && load <= cap == old(cap) && buckets == old(buckets)
      ensures forall b :: b in order ==> b in old(order) || fresh(b)
      ensures Keeps(old(buckets[..])) && Placed(old(buckets[..]), key)
      ensures Items() == old(Items()) + [(key, value)]
      ensures old(Mapped()) ==> Mapped() && IndexOf(old(Items()), key) == |old(Items())|
    {
      hide Linked, Housed, Chained, Passed, KeysOf, Count, Items;
      ghost var keys, m := Keys(), Mapped();
      RoomLeft();
      KeyAt(slot);
      if m {
        KeyIsNowhere(key, d);
        InsertedChained(keys, hash, key, (), d);
      }
      ghost var cells := buckets[..];
      Append(slot, key, value);
      assert forall b :: b in order ==> b in order[..|order| - 1] || b == order[|order| - 1];
      assert PlacedAt(cells, key, d);
    }

    lemma KeyAt(slot: nat)
      requires slot < buckets.Length
      ensures |Keys()| == buckets.Length && Keys()[slot] == KeyOf(buckets[slot])
    {
    }

    lemma RoomLeft()
      requires Valid()
      ensures |order| + 1 <= cap && |Keys()| == buckets.Length == cap
    {
    }

    /** Without growing: the pair at place `i` is replaced, or a new one added at the end. */
    method SetHere(key: nat, value: V) returns (added: bool, ghost i: nat)
      requires Valid()
      modifies this, buckets, Nodes()
      ensures added <==> i == |old(Items())|
      ensures added <==> old(Shadowed(key))
      ensures Keeps(old(buckets[..])) && (added ==> Placed(old(buckets[..]), key))
      ensures Formed() && load <= cap == old(cap) && buckets == old(buckets)
      ensures forall b :: b in order ==> b in old(order) || fresh(b)
      ensures i <= |old(Items())|
      ensures i < |old(Items())| ==> old(Items())[i].0 == key && Items() == old(Items())[i := (key, value)]
      ensures i == |old(Items())| ==> Items() == old(Items()) + [(key, value)]
      ensures old(Mapped()) ==> Mapped() && i == IndexOf(old(Items()), key)
    {
      hide Linked, Chained, Passed;
      var slot, d := FindPlace(key);
      if buckets[slot].Live? {
        ghost var m := Mapped();
        i := PlaceOf(slot);
        if m {
          KeyIsAt(key, i);
        }
        Revalue(buckets[slot].b, value, i);
        added := false;
      } else {
        added, i := true, |order|;
        Fill(slot, key, value, d);
      }
    }

    lemma KeysDiffer()
      requires Formed() && Mapped()
      ensures Distinct(Items())
    {
      hide Chained, Linked, Housed, Count;
      forall i, j | 0 <= i < j < |order|
        ensures order[i].key != order[j].key
      {
        if order[i].key == order[j].key {
          SameKey(i, j);
        }
      }
    }

    /** The pairs after setting one at place `i`. */
    static function With(items: seq<(nat, V)>, i: nat, key: nat, value: V): seq<(nat, V)>
      requires i <= |items|
    {
      if i < |items| then items[i := (key, value)] else items + [(key, value)]
    }

    /** Live buckets are where they were. */
    ghost predicate Keeps(cells: seq<Cell<V>>)
      reads this, buckets
    {
      buckets.Length == |cells| && forall s :: 0 <= s < |cells| && cells[s].Live? ==> buckets[s] == cells[s]
    }

    /** A bucket with the key has been put into the first slot, going from the key's home,
        that held no live bucket; all other slots are as they were. */
    ghost predicate Placed(cells: seq<Cell<V>>, key: nat)
      reads this, buckets
    {
      exists d: nat :: PlacedAt(cells, key, d)
    }

    ghost predicate PlacedAt(cells: seq<Cell<V>>, key: nat, d: nat)
      reads this, buckets
    {
      && d < cap == |cells| == buckets.Length && Passed(KeysOf(cells), hash, key, d)
      && var slot := Slot(hash(key), cap, d);
         && !cells[slot].Live? && buckets[slot].Live? && buckets[slot].b.key == key
         && forall s :: 0 <= s < cap && s != slot ==> buckets[s] == cells[s]
    }

    /** A pair is set; a table that is full then is made anew. */
    method Set(key: nat, value: V) returns (ghost i: nat)
      requires Valid()
      modifies this, buckets, Nodes()
      decreases if load + 1 < cap then 0 else 1, 1
      ensures Valid() && (buckets == old(buckets) || fresh(buckets))
      ensures forall b :: b in order ==> b in old(order) || fresh(b)
      ensures i <= |old(Items())| && (i < |old(Items())| ==> old(Items())[i].0 == key)
      ensures i == |old(Items())| <==> old(Shadowed(key))
      ensures var items := With(old(Items()), i, key, value);
              if |items| < old(cap)
              then && cap == old(cap) && Items() == items && Keeps(old(buckets[..]))
                   && (i == |old(Items())| ==> Placed(old(buckets[..]), key))
              else cap == 2 * old(cap) && Items() == Rebuilt(items)
      ensures old(Mapped()) ==> Mapped() && Items() == Put(old(Items()), key, value)
    {
      hide Linked, Housed, Chained, Keys;
      ghost var m := Mapped();
      var added;
      added, i := SetHere(key, value);
      LoadTest(load, cap);
      if added && (load / cap) as real > LOAD_FACTOR {
        if m {
          KeysDiffer();
          RebuiltIsSame(Items());
        }
        Grow();
      }
    }

    /** A table twice as large, filled by setting the pairs of the old list in its order. */
    method Grow()
      requires Formed() && load == cap
      modifies this, buckets, Nodes()
      decreases if load < cap then 0 else 1, 0
      ensures Valid() && Mapped() && cap == 2 * old(cap) && fresh(buckets)
      ensures forall b :: b in order ==> fresh(b)
      ensures Items() == Rebuilt(old(Items()))
    {
      hide Linked, Housed, Chained, Keys, Mapped, Count;
      ghost var was, items := order, Items();
      var bucket := first;
      ThreadedFromFirst();
      Restart();
      Refill(bucket, was);
    }

    /** Sets the pairs of another list, from its first node on. */
    method Refill(start: Bucket?<V>, ghost was: seq<Bucket<V>>)
      requires Valid() && Mapped() && order == [] && 2 * |was| <= cap && Threaded(was, start, 0)
      modifies this, buckets
      decreases if |was| < cap then 0 else 1, 2
      ensures Valid() && Mapped() && cap == old(cap) && (buckets == old(buckets) || fresh(buckets))
      ensures forall b :: b in order ==> fresh(b)
      ensures Items() == Rebuilt(old(PairsOf(was)))
    {
      hide Linked, Housed, Chained, Keys, Mapped, Count, Rebuilt, Shadowed, Placed, Keeps;
      ghost var items := PairsOf(was);
      var bucket := start;
      ghost var n := 0;
      RebuiltStart(items);
      while bucket != null
        invariant n <= |was| && Threaded(was, bucket, n) && PairsOf(was) == items
        invariant Valid() && Mapped() && cap == old(cap) && (buckets == old(buckets) || fresh(buckets))
        invariant forall b :: b in order ==> fresh(b)
        invariant Items() == Rebuilt(items[..n]) && |order| <= n
        decreases |was| - n
      {
        RebuiltNext(items, n);
        assert bucket == was[n] && items[n] == (bucket.key, bucket.value);
        ghost var _ := Set(bucket.key, bucket.value);
        bucket := bucket.next;
        n := n + 1;
      }
      assert items[..|was|] == items;
    }

    /** The list from its `n`th node on hangs together. */
    static ghost predicate Threaded(was: seq<Bucket<V>>, bucket: Bucket?<V>, n: nat)
      reads set b | b in was
    {
      && n <= |was| && bucket == (if n < |was| then was[n] else null)
      && forall j {:trigger was[j].next} :: 0 <= j < |was| ==> was[j].next == At(was, j + 1)
    }

    lemma ThreadedFromFirst()
      requires Linked()
      ensures Threaded(order, first, 0)
    {
    }

    method Restart()
      requires cap > 0
      modifies this
      ensures Valid() && Mapped() && cap == 2 * old(cap) && fresh(buckets) && order == [] && load == 0
    {
      cap := cap * 2;
      buckets := new Cell<V>[cap](_ => Empty);
      load := 0;
      first, last, order, slots := null, null, [], [];
      CountBound(Keys());
    }

    /** In a map without deletions every search ends, with the latest value of the key. */
    method Get(key: nat) returns (r: Answer<V>)
      requires Valid()
      ensures r.Value? ==> (key, r.v) in Items()
      ensures r.Endless? <==> NeverStops(key)
      ensures Mapped() ==> r == match Lookup(Items(), key) case Some(v) => Value(v) case None => Absent
    {
      hide Chained, Count;
      CapIs();
      var found, d := Find(key);
      match found {
        case Found(slot, b) =>
          PlaceKnown(slot, key);
          r := Value(b.value);
        case Missing =>
          if Mapped() {
            MissingIsPassed(key, d);
            KeyIsNowhere(key, d);
          }
          r := Absent;
        case Forever =>
          SomeFree(key);
          r := Endless;
      }
    }

    method Has(key: nat) returns (r: Answer<bool>)
      requires Valid()
      ensures r.Endless? <==> NeverStops(key)
      ensures Mapped() ==> r == Value(Lookup(Items(), key).Some?)
    {
      var v := Get(key);
      r := match v case Value(_) => Value(true) case Absent => Value(false) case Endless => Endless;
    }

    lemma CapIs()
      requires Valid()
      ensures buckets.Length == cap > 0
    {
    }

    lemma PlaceKnown(slot: nat, key: nat)
      requires Valid() && slot < cap && buckets[slot].Live? && buckets[slot].b.key == key
      ensures (key, buckets[slot].b.value) in Items()
      ensures Mapped() ==> Lookup(Items(), key) == Some(buckets[slot].b.value)
    {
      hide Linked, Chained, Count;
      var i :| 0 <= i < |slots| && slots[i] == slot;
      assert Items()[i] == (key, buckets[slot].b.value);
      if Mapped() {
        KeyIsAt(key, i);
      }
    }

    lemma MissingIsPassed(key: nat, d: nat)
      requires Valid() && Mapped() && d < cap && buckets[Slot(hash(key), cap, d)] == Empty
      requires forall e :: 0 <= e < d ==> !Stops(key, Slot(hash(key), cap, e))
      ensures Passed(Keys(), hash, key, d) && Keys()[Slot(hash(key), cap, d)].Free?
    {
      hide Linked, Chained, Count;
      forall e | 0 <= e < d
        ensures var x := Keys()[Slot(hash(key), cap, e)]; x.Used? && x.key != key
      {
        assert !Stops(key, Slot(hash(key), cap, e));
      }
    }

    /** Without tombstones there is an empty slot to stop at. */
    lemma SomeFree(key: nat)
      requires Valid()
      ensures Mapped() ==> !NeverStops(key)
    {
      hide Linked, Chained;
      var d := FreeSlotAhead(Keys(), hash(key));
      var s := Slot(hash(key), cap, d);
      assert Mapped() ==> Stops(key, s);
    }

    /** The neighbours of a node, or the ends of the list, point past it. */
    method Unlink(b: Bucket<V>, ghost i: nat)
      requires Linked() && i < |order| && b == order[i]
      modifies this`first, this`last, Nodes()
      ensures forall j :: 0 <= j < |order| ==> order[j].value == old(order[j].value)
      ensures Bypassed(order, first, last, i)
    {
      if b.next != null {
        b.next.prev := b.prev;
      } else {
        last := b.prev;
      }
      if b.prev != null {
        b.prev.next := b.next;
      } else {
        first := b.next;
      }
    }

    /** A list whose `i`th node is no longer pointed to. */
    static ghost predicate Bypassed(nodes: seq<Bucket<V>>, first: Bucket?<V>, last: Bucket?<V>, i: nat)
      reads set b | b in nodes
    {
      && first == At(nodes, if i == 0 then 1 else 0)
      && last == At(nodes, if i == |nodes| - 1 then i - 1 else |nodes| - 1)
      && (forall j {:trigger nodes[j].prev} :: 0 <= j < |nodes| && j != i ==>
            nodes[j].prev == At(nodes, if j == i + 1 then i - 1 else j - 1))
      && (forall j {:trigger nodes[j].next} :: 0 <= j < |nodes| && j != i ==>
            nodes[j].next == At(nodes, if j == i - 1 then i + 1 else j + 1))
    }

    /** The bucket is taken out of the list. */
    method Unthread(b: Bucket<V>, ghost i: nat)
      requires Linked() && i < |order| && b == order[i]
      modifies this`first, this`last, this`order, Nodes()
      ensures Linked() && order == old(order)[..i] + old(order)[i + 1..]
      ensures Items() == old(Items())[..i] + old(Items())[i + 1..]
    {
      ghost var was, items := order, Items();
      assert forall j, k :: 0 <= j < k < |was| ==> was[j] != was[k];
      hide Linked;
      Unlink(b, i);
      order := was[..i] + was[i + 1..];
      Relinked(was, i);
      assert Items() == items[..i] + items[i + 1..];
    }

    lemma Relinked(was: seq<Bucket<V>>, i: nat)
      requires forall j, k :: 0 <= j < k < |was| ==> was[j] != was[k]
      requires i < |was| && Bypassed(was, first, last, i) && order == was[..i] + was[i + 1..]
      ensures Linked()
    {
      var nodes := order;
      RelinkedPrev(was, nodes, i);
      RelinkedNext(was, nodes, i);
      RelinkedApart(was, nodes, i);
    }

    /** Where the node at a place was before the `i`th was taken out. */
    static function Shifted(i: nat, j: nat): int { if j < i then j else j + 1 }

    static lemma ShiftedAt(was: seq<Bucket<V>>, nodes: seq<Bucket<V>>, i: nat, j: nat)
      requires i < |was| && nodes == was[..i] + was[i + 1..] && j < |nodes|
      ensures Shifted(i, j) < |was| && nodes[j] == was[Shifted(i, j)]
    {
    }

    lemma RelinkedPrev(was: seq<Bucket<V>>, nodes: seq<Bucket<V>>, i: nat)
      requires i < |was| && Bypassed(was, first, last, i) && nodes == was[..i] + was[i + 1..]
      ensures forall j {:trigger nodes[j].prev} :: 0 <= j < |nodes| ==> nodes[j].prev == At(nodes, j - 1)
    {
      forall j: int | 0 <= j < |nodes|
        ensures nodes[j].prev == At(nodes, j - 1)
      {
        var k: int := Shifted(i, j);
        ShiftedAt(was, nodes, i, j);
        assert was[k].prev == At(was, if k == i + 1 then i - 1 else k - 1);
        if j > 0 {
          ShiftedAt(was, nodes, i, j - 1);
        }
      }
    }

    lemma RelinkedNext(was: seq<Bucket<V>>, nodes: seq<Bucket<V>>, i: nat)
      requires i < |was| && Bypassed(was, first, last, i) && nodes == was[..i] + was[i + 1..]
      ensures forall j {:trigger nodes[j].next} :: 0 <= j < |nodes| ==> nodes[j].next == At(nodes, j + 1)
    {
      forall j: int | 0 <= j < |nodes|
        ensures nodes[j].next == At(nodes, j + 1)
      {
        var k: int := Shifted(i, j);
        ShiftedAt(was, nodes, i, j);
        assert was[k].next == At(was, if k == i - 1 then i + 1 else k + 1);
        if j + 1 < |nodes| {
          ShiftedAt(was, nodes, i, j + 1);
        }
      }
    }

    static lemma RelinkedApart(was: seq<Bucket<V>>, nodes: seq<Bucket<V>>, i: nat)
      requires forall j, k :: 0 <= j < k < |was| ==> was[j] != was[k]
      requires i < |was| && nodes == was[..i] + was[i + 1..]
      ensures forall j, k :: 0 <= j < k < |nodes| ==> nodes[j] != nodes[k]
    {
      forall j, k | 0 <= j < k < |nodes|
        ensures nodes[j] != nodes[k]
      {
        ShiftedAt(was, nodes, i, j);
        ShiftedAt(was, nodes, i, k);
      }
    }

    /** A slot becomes a tombstone when its bucket has left the list. */
    lemma Rehoused(was: seq<Bucket<V>>, homes: seq<nat>, cells: seq<Cell<V>>, slot: nat, i: nat)
      requires forall j, k :: 0 <= j < k < |was| ==> was[j] != was[k]
      requires |homes| == |was| && |cells| == cap == buckets.Length && i < |was| && homes[i] == slot
      requires forall j :: 0 <= j < |was| ==> homes[j] < cap && cells[homes[j]] == Live(was[j])
      requires forall s :: 0 <= s < cap && cells[s].Live? ==> s in homes
      requires order == was[..i] + was[i + 1..] && slots == homes[..i] + homes[i + 1..]
      requires buckets[..] == cells[slot := Tombstone]
      ensures Housed()
    {
      forall j | 0 <= j < |order|
        ensures slots[j] < cap && buckets[slots[j]] == Live(order[j])
      {
        var k: int := Shifted(i, j);
        ShiftedAt(was, order, i, j);
        assert slots[j] == homes[k] && cells[homes[k]] == Live(was[k]) && was[k] != was[i];
        assert buckets[slots[j]] == buckets[..][slots[j]];
      }
      forall s | 0 <= s < cap && buckets[s].Live?
        ensures s in slots
      {
        assert buckets[..][s] == buckets[s];
        var k :| 0 <= k < |homes| && homes[k] == s;
        assert slots[if k < i then k else k - 1] == s;
      }
    }

    /** All but one of a sequence. */
    static function Without<T>(s: seq<T>, i: nat): seq<T> {
      if i < |s| then s[..i] + s[i + 1..] else s
    }

    method Remove(slot: nat, b: Bucket<V>, ghost i: nat)
      requires Valid() && slot < cap && buckets[slot] == Live(b) && i < |order| && slots[i] == slot
      modifies this, buckets, Nodes()
      ensures Valid() && cap == old(cap) && buckets == old(buckets) && load == old(load) - 1
      ensures order == Without(old(order), i) && Items() == Without(old(Items()), i)
      ensures buckets[..] == old(buckets[..])[slot := Tombstone]
    {
      hide Linked, Count;
      ghost var was, homes, cells, keys := order, slots, buckets[..], Keys();
      OrderApart();
      Unthread(b, i);
      assert (buckets as object) !in Nodes();
      buckets[slot] := Tombstone;
      slots := homes[..i] + homes[i + 1..];
      load := load - 1;
      assert Linked();
      assert buckets[..] == cells[slot := Tombstone];
      Rehoused(was, homes, cells, slot, i);
      CountUpdate(keys, slot, Free);
      assert Keys() == keys[slot := Free];
    }

    lemma OrderApart()
      requires Linked()
      ensures forall j, k :: 0 <= j < k < |order| ==> order[j] != order[k]
    {
    }

    /** The key's bucket leaves the list and its slot becomes a tombstone; the pairs that
        stay keep their order. */
    method Delete(key: nat) returns (r: Search<V>, ghost i: nat)
      requires Valid()
      modifies this, buckets, Nodes()
      ensures Valid() && cap == old(cap) && buckets == old(buckets)
      ensures r.Found? ==>
                && i < |old(Items())| && old(Items())[i].0 == key && Items() == Without(old(Items()), i)
                && load == old(load) - 1 && r.slot < cap && old(buckets[..])[r.slot] == Live(r.b) && r.b.key == key
                && buckets[..] == old(buckets[..])[r.slot := Tombstone]
      ensures !r.Found? ==> Items() == old(Items()) && load == old(load) && buckets[..] == old(buckets[..])
      ensures forall b :: b in order ==> b in old(order)
      ensures (r.Forever? <==> old(NeverStops(key))) && (r.Missing? ==> old(Misses(key)))
      ensures old(Mapped()) ==> !r.Forever? && (r.Found? <==> Lookup(old(Items()), key).Some?)
    {
      hide Chained, Count, Misses, NeverStops, Linked, Housed, Keys;
      CapIs();
      ghost var never := NeverStops(key);
      var d;
      r, d := Find(key);
      i := 0;
      assert r.Forever? <==> never;
      match r {
        case Found(slot, b) =>
          PlaceKnown(slot, key);
          i := PlaceOf(slot);
          assert Items()[i].0 == key;
          Remove(slot, b, i);
        case Missing =>
          if Mapped() {
            MissingIsPassed(key, d);
            KeyIsNowhere(key, d);
          }
        case Forever =>
          SomeFree(key);
      }
    }

    /** `from_entries`: the pairs of an iterator are set one after the other. */
    method Extend(entries: seq<(nat, V)>)
      requires Valid() && Mapped() && Items() == []
      modifies this, buckets, Nodes()
      ensures Valid() && Mapped() && Items() == Rebuilt(entries)
    {
      hide Linked, Housed, Chained, Keys, Mapped, Count;
      for n := 0 to |entries|
        invariant Valid() && Mapped() && Items() == Rebuilt(entries[..n])
        invariant (buckets == old(buckets) || fresh(buckets)) && forall b :: b in order ==> b in old(order) || fresh(b)
      {
        assert entries[..n + 1][..n] == entries[..n];
        ghost var _ := Set(entries[n].0, entries[n].1);
      }
      assert entries[..|entries|] == entries;
    }

    /** All pairs, as the iterator gives them one by one until it stops. */
    method Entries() returns (pairs: seq<(nat, V)>)
      requires Valid()
      ensures pairs == Items()
    {
      ThreadedFromFirst();
      var iter := new HashMapIterator(first, order);
      pairs := [];
      var result := iter.Next();
      while result.Some?
        invariant fresh(iter) && iter.Valid() && iter.nodes == order && PairsOf(order) == Items()
        invariant iter.at == |pairs| + (if result.Some? then 1 else 0) <= |order|
        invariant result.Some? ==> result.value == Items()[|pairs|]
        invariant result.None? ==> iter.at == |order|
        invariant pairs == Items()[..|pairs|]
        decreases |order| - |pairs|
      {
        pairs := pairs + [result.value];
        result := iter.Next();
      }
    }
  }

  /** Two keys with the same home, and the first is deleted: its tombstone takes the second
      key when that is set again, and then the map has it twice. */
  method DuplicateAfterDelete() returns (pairs: seq<(nat, int)>)
    ensures pairs == [(8, 20), (8, 30)]
  {
    hide HashMap.Linked, HashMap.Housed, HashMap.Keys, Chained, Count, HashMap.Shadowed;
    var m := TwoAtHome();
    m.CapIs();
    ghost var cells := m.buckets[..];
    assert cells[0] == m.buckets[0];
    assert forall slot :: 0 <= slot < 8 && cells[slot].Live? && cells[slot].b.key == 0 ==> slot == 0 by {
      forall slot | 0 <= slot < 8 && cells[slot].Live? && cells[slot].b.key == 0
        ensures slot == 0
      {
        OnlySlot(m, slot);
      }
    }
    var r, i := m.Delete(0);
    m.CapIs();
    assert r.Found? && m.Items() == [(8, 20)];
    assert m.buckets[..][0] == m.buckets[0];
    HiddenByTombstone(m);
    var _ := m.Set(8, 30);
    pairs := m.Entries();
  }

  method TwoAtHome() returns (m: HashMap<int>)
    ensures fresh(m) && fresh(m.buckets) && forall b :: b in m.order ==> fresh(b)
    ensures m.Valid() && m.Mapped() && m.Items() == [(0, 10), (8, 20)] && m.cap == 8 && m.hash(8) == 8
    ensures m.buckets[0].Live? && m.buckets[0].b.key == 0
  {
    hide HashMap.Linked, HashMap.Housed, HashMap.Keys, Chained, Count, HashMap.Shadowed;
    m := new HashMap<int>(x => x, 8);
    var _ := m.Set(0, 10);
    assert m.Items() == [(0, 10)];
    m.CapIs();
    FirstAtHome(m);
    ghost var cells := m.buckets[..];
    assert cells[0] == m.buckets[0];
    var _ := m.Set(8, 20);
    assert m.Items() == [(0, 10), (8, 20)];
    m.CapIs();
  }

  /** The only key of a table is in its home slot. */
  lemma FirstAtHome(m: HashMap<int>)
    requires m.Valid() && m.Mapped() && m.cap == 8 && m.Items() == [(0, 10)] && m.hash(0) == 0
    ensures m.buckets[0].Live? && m.buckets[0].b.key == 0
  {
    assert m.Items()[0].0 == m.order[0].key;
    var s := m.slots[0];
    assert m.Keys()[s] == Used(0, ());
    var d: nat :| At(m.Keys(), m.hash, 0, d) && Slot(0, 8, d) == s;
    assert Slot(m.hash(0), 8, 0) == 0;
    assert m.Keys()[0].Used? ==> m.Keys()[0].key == 0;
  }

  /** A tombstone at its home slot hides a key. */
  lemma HiddenByTombstone(m: HashMap<int>)
    requires m.Valid() && m.cap == 8 && m.hash(8) == 8 && m.buckets[0] == Tombstone
    ensures m.Shadowed(8)
  {
    MaskIsRemainder(8, 3);
    assert Pow2(3) == 8 && Slot(8, 8, 0) == 0;
    assert Passed(m.Keys(), m.hash, 8, 0);
  }

  lemma OnlySlot(m: HashMap<int>, slot: nat)
    requires m.Valid() && m.Mapped() && m.cap == 8 && slot < 8
    requires m.buckets[0].Live? && m.buckets[0].b.key == 0 && m.buckets[slot].Live? && m.buckets[slot].b.key == 0
    ensures slot == 0
  {
    assert m.Keys()[0] == Used(0, ()) && m.Keys()[slot] == Used(0, ());
    Unique(m.Keys(), m.hash, 0, slot);
  }

  /** In a table whose slots have all been used and deleted, looking up any key runs for
      ever. */
  method EndlessAfterDeletes(key: nat) returns (r: Answer<int>)
    ensures r == Endless
  {
    var m := AllDeleted();
    r := m.Get(key);
  }

  /** Every slot in turn takes a key and loses it. */
  method AllDeleted() returns (m: HashMap<int>)
    ensures m.Valid() && m.Items() == [] && m.cap == 8 && forall key :: m.NeverStops(key)
  {
    hide HashMap.Valid, HashMap.Linked, HashMap.Housed, HashMap.Keys, HashMap.Items, Chained, Count;
    m := new HashMap<int>(x => x, 8);
    NothingYet(m);
    var k := 0;
    while k < 8
      invariant k <= 8 && m.Valid() && m.Items() == [] && m.cap == 8 == m.buckets.Length && (forall x :: m.hash(x) == x)
      invariant forall s :: 0 <= s < 8 ==> m.buckets[s] == if s < k then Tombstone else Empty
      invariant fresh(m) && fresh(m.buckets) && m.order == []
    {
      Turn(m, k);
      k := k + 1;
    }
    NoItems(m);
  }

  lemma NoItems(m: HashMap<int>)
    ensures m.Items() == [] <==> m.order == []
  {
  }

  /** One key comes and goes. */
  method Turn(m: HashMap<int>, k: nat)
    requires m.Valid() && m.Items() == [] && m.cap == 8 == m.buckets.Length && m.hash(k) == k && k < 8 && m.buckets[k] == Empty
    modifies m, m.buckets, m.Nodes()
    ensures m.Valid() && m.Items() == [] && m.order == [] && m.cap == 8 && (m.buckets == old(m.buckets) || fresh(m.buckets))
    ensures m.buckets[..] == old(m.buckets[..])[k := Tombstone]
  {
    hide HashMap.Valid, HashMap.Linked, HashMap.Housed, HashMap.Keys, HashMap.Mapped, HashMap.Items, HashMap.Shadowed;
    hide HashMap.Misses, HashMap.NeverStops, HashMap.Placed, HashMap.Keeps, Slot;
    ghost var cells := m.buckets[..];
    NoneLive(m);
    var _ := m.Set(k, k);
    AtHome(m, cells, k);
    m.CapIs();
    ghost var live := m.buckets[..];
    var r, i := m.Delete(k);
    m.CapIs();
    assert live == cells[k := live[k]];
    NoneLive(m);
  }

  lemma NoneLive(m: HashMap<int>)
    requires m.Valid() && m.Items() == []
    ensures m.order == [] && forall s :: 0 <= s < m.buckets.Length ==> !m.buckets[s].Live?
  {
  }

  lemma NothingYet(m: HashMap<int>)
    requires m.Valid() && m.Mapped() && m.Items() == []
    ensures m.buckets.Length == m.cap && m.order == [] && forall s :: 0 <= s < m.cap ==> m.buckets[s] == Empty
  {
  }

  /** A key whose home slot was empty is there, and will be found. */
  lemma AtHome(m: HashMap<int>, cells: seq<Cell<int>>, k: nat)
    requires m.Placed(cells, k) && k < 8 == m.cap && m.hash(k) == k && cells[k] == Empty
    ensures m.buckets[k].Live? && m.buckets[k].b.key == k && forall s :: 0 <= s < 8 && s != k ==> m.buckets[s] == cells[s]
    ensures !m.Misses(k) && !m.NeverStops(k)
  {
    HomeSlot(k);
    var d: nat :| m.PlacedAt(cells, k, d);
    assert HashMap.KeysOf(cells)[Slot(m.hash(k), |cells|, 0)] == Free;
    assert m.Stops(k, k);
    assert m.Stops(k, Slot(m.hash(k), 8, 0));
  }

  lemma HomeSlot(k: nat)
    requires k < 8
    ensures Slot(k, 8, 0) == k
  {
    MaskIsRemainder(k, 3);
    assert Pow2(3) == 8;
  }

  class HashMapIterator<V(!new)> {
    var bucket: Bucket?<V>
    ghost const nodes: seq<Bucket<V>>
    ghost var at: nat

    ghost predicate Valid()
      reads this, set b | b in nodes
    {
      HashMap.Threaded(nodes, bucket, at)
    }

    constructor (first: Bucket?<V>, ghost nodes: seq<Bucket<V>>)
      requires HashMap.Threaded(nodes, first, 0)
      ensures Valid() && this.nodes == nodes && at == 0
    {
      bucket, this.nodes, at := first, nodes, 0;
    }

    method Next() returns (r: Option<(nat, V)>)
      requires Valid()
      modifies this
      ensures Valid()
      ensures old(at) == |nodes| ==> r.None? && at == old(at)
      ensures old(at) < |nodes| ==> r == Some((nodes[old(at)].key, nodes[old(at)].value)) && at == old(at) + 1
    {
      if bucket == null {
        return None;
      }
      r := Some((bucket.key, bucket.value));
      bucket := bucket.next;
      at := at + 1;
    }
  }
}
