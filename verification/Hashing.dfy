/** Tables with linear probing, as sequences of entries: where a key is, and what an
    insertion does to the others. */
module Hashing {

  datatype Entry<+V> = Free | Used(key: nat, value: V)

  /** Bitwise and. */
  function And(a: nat, b: nat): (r: nat)
    ensures r <= b
  {
    if a == 0 || b == 0 then 0 else (a % 2) * (b % 2) + 2 * And(a / 2, b / 2)
  }

  function Pow2(k: nat): (n: nat)
    ensures n > 0
  {
    if k == 0 then 1 else 2 * Pow2(k - 1)
  }

  ghost predicate PowerOfTwo(n: nat) { exists k: nat :: n == Pow2(k) }

  /** `WRAP`: the mask that is one less than the table size. */
  function Wrap(i: nat, size: nat): (r: nat)
    requires size > 0
    ensures r < size
  {
    And(i, size - 1)
  }

  /** For a power of two masking is the remainder. */
  lemma {:induction false} MaskIsRemainder(i: nat, k: nat)
    ensures Wrap(i, Pow2(k)) == i % Pow2(k)
  {
    if k > 0 {
      var p := Pow2(k - 1);
      MaskIsRemainder(i / 2, k - 1);
      MaskStep(i, p);
    }
  }

  lemma MaskStep(i: nat, p: nat)
    requires p > 0 && And(i / 2, p - 1) == (i / 2) % p
    ensures And(i, 2 * p - 1) == i % (2 * p)
  {
    hide And;
    MaskHalves(i, p);
    RemainderHalves(i, p);
  }

  lemma MaskHalves(i: nat, p: nat)
    requires p > 0
    ensures And(i, 2 * p - 1) == i % 2 + 2 * And(i / 2, p - 1)
  {
    var m := 2 * p - 1;
    assert m % 2 == 1 && m / 2 == p - 1;
  }

  lemma RemainderHalves(i: nat, p: nat)
    requires p > 0
    ensures i % (2 * p) == i % 2 + 2 * ((i / 2) % p)
  {
    var h, q, r := i / 2, (i / 2) / p, (i / 2) % p;
    DivMod(h, p);
    assert h == q * p + r;
    assert i == 2 * h + i % 2;
    assert q * (2 * p) == 2 * (q * p);
    ModIs(i, 2 * p, q, i % 2 + 2 * r);
  }

  /** The slot `d` steps after the home slot of a hash value. */
  function Slot(hash: nat, size: nat, d: nat): (i: nat)
    requires d < size
    ensures i < size
  {
    var home := Wrap(hash, size);
    if home + d < size then home + d else home + d - size
  }

  /** The key is found after exactly `d` steps, over used slots with other keys. */
  ghost predicate At<V>(es: seq<Entry<V>>, hash: nat -> nat, key: nat, d: nat)
    requires |es| > 0
  {
    && d < |es|
    && (var x := es[Slot(hash(key), |es|, d)]; x.Used? && x.key == key)
    && Passed(es, hash, key, d)
  }

  /** The first `d` slots of the probe sequence are used, by other keys. */
  ghost predicate Passed<V>(es: seq<Entry<V>>, hash: nat -> nat, key: nat, d: nat)
    requires d <= |es|
  {
    forall e :: 0 <= e < d ==> var x := es[Slot(hash(key), |es|, e)]; x.Used? && x.key != key
  }

  /** Every entry can be found by probing from its home slot. */
  ghost predicate Chained<V>(es: seq<Entry<V>>, hash: nat -> nat) {
    |es| > 0 && forall i :: 0 <= i < |es| && es[i].Used? ==> exists d :: At(es, hash, es[i].key, d) && Slot(hash(es[i].key), |es|, d) == i
  }

  function Count<V>(es: seq<Entry<V>>): nat {
    if es == [] then 0 else Count(es[..|es| - 1]) + if es[|es| - 1].Used? then 1 else 0
  }

  /** The entries of the table are those of the map. */
  ghost predicate Represents<V(!new)>(es: seq<Entry<V>>, contents: map<nat, V>) {
    && (forall i :: 0 <= i < |es| && es[i].Used? ==> es[i].key in contents && contents[es[i].key] == es[i].value)
    && (forall k :: k in contents ==> exists i :: 0 <= i < |es| && es[i] == Used(k, contents[k]))
  }

  // ----- slots -----

  /** Within one turn the probe sequence visits no slot twice. */
  lemma SlotsDiffer(hash: nat, size: nat, d: nat, e: nat)
    requires d < e < size
    ensures Slot(hash, size, d) != Slot(hash, size, e)
  {
  }

  /** Within one turn it visits every slot. */
  lemma SlotVisited(hash: nat, size: nat, i: nat) returns (d: nat)
    requires i < size
    ensures d < size && Slot(hash, size, d) == i
  {
    var home := Wrap(hash, size);
    d := if i >= home then i - home else i + size - home;
  }

  /** Counting on and wrapping is going on to the next slot. */
  lemma WrapIsSlot(hash: nat, size: nat, d: nat)
    requires d < size && PowerOfTwo(size)
    ensures Wrap(hash + d, size) == Slot(hash, size, d)
  {
    var k: nat :| size == Pow2(k);
    MaskIsRemainder(hash, k);
    MaskIsRemainder(hash + d, k);
    RemainderSteps(hash, size, d);
  }

  lemma RemainderSteps(hash: nat, size: nat, d: nat)
    requires d < size
    ensures var home := hash % size; (hash + d) % size == if home + d < size then home + d else home + d - size
  {
    var home, q := hash % size, hash / size;
    DivMod(hash, size);
    if home + d < size {
      ModIs(hash + d, size, q, home + d);
    } else {
      assert (q + 1) * size == q * size + size;
      ModIs(hash + d, size, q + 1, home + d - size);
    }
  }

  lemma DoublePower(n: nat)
    requires PowerOfTwo(n)
    ensures PowerOfTwo(2 * n)
  {
    var k: nat :| n == Pow2(k);
    assert 2 * n == Pow2(k + 1);
  }

  lemma ModIs(x: nat, size: nat, q: nat, i: nat)
    requires i < size && x == q * size + i
    ensures x % size == i
  {
    var p := x / size;
    DivMod(x, size);
    if p < q {
      MulGap(size, p, q);
      assert false;
    } else if p > q {
      MulGap(size, q, p);
      assert false;
    }
  }

  lemma DivMod(x: nat, size: nat)
    requires size > 0
    ensures x == (x / size) * size + x % size
  {
  }

  lemma MulGap(size: nat, p: nat, q: nat)
    requires p < q
    ensures q * size >= p * size + size
  {
    assert q * size == p * size + (q - p) * size;
    assert (q - p) * size == (q - p - 1) * size + size;
  }

  // ----- counting -----

  lemma {:induction false} CountBound<V>(es: seq<Entry<V>>)
    ensures Count(es) <= |es|
    ensures (forall i :: 0 <= i < |es| ==> es[i].Used?) ==> Count(es) == |es|
    ensures (forall i :: 0 <= i < |es| ==> es[i].Free?) ==> Count(es) == 0
  {
    if es != [] {
      CountBound(es[..|es| - 1]);
    }
  }

  lemma {:induction false} CountUpdate<V>(es: seq<Entry<V>>, i: nat, x: Entry<V>)
    requires i < |es|
    ensures Count(es[i := x]) == Count(es) + (if x.Used? then 1 else 0) - (if es[i].Used? then 1 else 0)
  {
    var n := |es| - 1;
    if i < n {
      CountUpdate(es[..n], i, x);
      assert es[i := x][..n] == es[..n][i := x];
    } else {
      assert es[i := x][..n] == es[..n];
    }
  }

  /** A table that is not full has a free slot on every probe sequence. */
  lemma FreeSlotAhead<V>(es: seq<Entry<V>>, hash: nat) returns (d: nat)
    requires Count(es) < |es|
    ensures d < |es| && es[Slot(hash, |es|, d)].Free?
  {
    CountBound(es);
    var i :| 0 <= i < |es| && es[i].Free?;
    d := SlotVisited(hash, |es|, i);
  }

  // ----- finding and inserting -----

  /** A free slot after other keys means that the key is nowhere. */
  lemma NotThere<V>(es: seq<Entry<V>>, hash: nat -> nat, key: nat, d: nat)
    requires Chained(es, hash) && d < |es| && Passed(es, hash, key, d) && es[Slot(hash(key), |es|, d)].Free?
    ensures forall i :: 0 <= i < |es| && es[i].Used? ==> es[i].key != key
  {
    forall i | 0 <= i < |es| && es[i].Used?
      ensures es[i].key != key
    {
      var e: nat :| At(es, hash, es[i].key, e) && Slot(hash(es[i].key), |es|, e) == i;
      if es[i].key == key {
        assert false;
      }
    }
  }

  /** A key is in one place only. */
  lemma Unique<V>(es: seq<Entry<V>>, hash: nat -> nat, i: nat, j: nat)
    requires Chained(es, hash) && i < |es| && j < |es| && es[i].Used? && es[j].Used? && es[i].key == es[j].key
    ensures i == j
  {
    var key := es[i].key;
    var d: nat :| At(es, hash, key, d) && Slot(hash(key), |es|, d) == i;
    var e: nat :| At(es, hash, key, e) && Slot(hash(key), |es|, e) == j;
    if d < e {
      assert false;
    } else if e < d {
      assert false;
    }
  }

  lemma InsertedChained<V>(es: seq<Entry<V>>, hash: nat -> nat, key: nat, value: V, d: nat)
    requires Chained(es, hash)
    requires d < |es| && Passed(es, hash, key, d) && es[Slot(hash(key), |es|, d)].Free?
    ensures var es1 := es[Slot(hash(key), |es|, d) := Used(key, value)];
            Chained(es1, hash) && Count(es1) == Count(es) + 1
  {
    var at := Slot(hash(key), |es|, d);
    var es1 := es[at := Used(key, value)];
    NotThere(es, hash, key, d);
    CountUpdate(es, at, Used(key, value));
    forall i | 0 <= i < |es1| && es1[i].Used?
      ensures exists e :: At(es1, hash, es1[i].key, e) && Slot(hash(es1[i].key), |es1|, e) == i
    {
      if i == at {
        ProbeKept(es, hash, key, d, at, value);
        assert At(es1, hash, key, d);
      } else {
        var e: nat :| At(es, hash, es[i].key, e) && Slot(hash(es[i].key), |es|, e) == i;
        ProbeKeptOther(es, hash, es[i].key, e, at, key, value);
        assert At(es1, hash, es1[i].key, e);
      }
    }
  }

  lemma Inserted<V(!new)>(es: seq<Entry<V>>, hash: nat -> nat, contents: map<nat, V>, key: nat, value: V, d: nat)
    requires Chained(es, hash) && Represents(es, contents)
    requires d < |es| && Passed(es, hash, key, d) && es[Slot(hash(key), |es|, d)].Free?
    ensures var es1 := es[Slot(hash(key), |es|, d) := Used(key, value)];
            Chained(es1, hash) && Represents(es1, contents[key := value]) && key !in contents && Count(es1) == Count(es) + 1
  {
    var at := Slot(hash(key), |es|, d);
    var es1 := es[at := Used(key, value)];
    NotThere(es, hash, key, d);
    InsertedChained(es, hash, key, value, d);
    var contents1 := contents[key := value];
    forall k | k in contents1
      ensures exists i :: 0 <= i < |es1| && es1[i] == Used(k, contents1[k])
    {
      if k == key {
        assert es1[at] == Used(key, value);
      } else {
        var i :| 0 <= i < |es| && es[i] == Used(k, contents[k]);
        assert es1[i] == es[i];
      }
    }
  }

  lemma ProbeKept<V>(es: seq<Entry<V>>, hash: nat -> nat, key: nat, d: nat, at: nat, value: V)
    requires |es| > 0 && d < |es| && at == Slot(hash(key), |es|, d) && Passed(es, hash, key, d)
    ensures Passed(es[at := Used(key, value)], hash, key, d)
  {
    forall e | 0 <= e < d
      ensures Slot(hash(key), |es|, e) != at
    {
      SlotsDiffer(hash(key), |es|, e, d);
    }
  }

  /** A used slot more does not break the way to another key. */
  lemma ProbeKeptOther<V>(es: seq<Entry<V>>, hash: nat -> nat, k: nat, e: nat, at: nat, key: nat, value: V)
    requires |es| > 0 && at < |es| && At(es, hash, k, e) && es[at].Free? && k != key
    ensures At(es[at := Used(key, value)], hash, k, e)
  {
  }

  /** Another value for a key that is there. */
  lemma Replaced<V(!new)>(es: seq<Entry<V>>, hash: nat -> nat, contents: map<nat, V>, i: nat, value: V)
    requires Chained(es, hash) && Represents(es, contents) && i < |es| && es[i].Used?
    ensures var es1 := es[i := Used(es[i].key, value)];
            Chained(es1, hash) && Represents(es1, contents[es[i].key := value]) && Count(es1) == Count(es)
  {
    var key := es[i].key;
    var es1 := es[i := Used(key, value)];
    CountUpdate(es, i, Used(key, value));
    forall j | 0 <= j < |es1| && es1[j].Used?
      ensures exists e :: At(es1, hash, es1[j].key, e) && Slot(hash(es1[j].key), |es1|, e) == j
      ensures es1[j].key in contents[key := value] && contents[key := value][es1[j].key] == es1[j].value
    {
      var e: nat :| At(es, hash, es[j].key, e) && Slot(hash(es[j].key), |es|, e) == j;
      assert At(es1, hash, es1[j].key, e);
      if es[j].key == key {
        Unique(es, hash, i, j);
      }
    }
    var contents1 := contents[key := value];
    forall k | k in contents1
      ensures exists j :: 0 <= j < |es1| && es1[j] == Used(k, contents1[k])
    {
      if k == key {
        assert es1[i] == Used(key, value);
      } else {
        var j :| 0 <= j < |es| && es[j] == Used(k, contents[k]);
        assert es1[j] == es[j];
      }
    }
  }
}
