/** The scope chain of a function being compiled: blocks are pushed and popped, names
    are bound to local slots, and a closed block gives its slots back. */
module Scopes {
  import opened Syntax

  datatype Binding = Binding(name: Name, index: nat)

  /** One block: its bindings, newest first, and the first slot free after them. */
  datatype Level = Level(bindings: seq<Binding>, numLocals: nat)

  function Declared(bs: seq<Binding>): seq<Name> {
    if bs == [] then [] else Declared(bs[1..]) + [bs[0].name]
  }

  /** The visible names in order of declaration; `levels[0]` is the innermost block. */
  function Visible(levels: seq<Level>): seq<Name> {
    if levels == [] then [] else Visible(levels[1..]) + Declared(levels[0].bindings)
  }

  /** Every block starts at the slot where the enclosing block stands, and its bindings
      take consecutive slots. */
  ghost predicate Packed(levels: seq<Level>) {
    levels == [] ||
    (&& Packed(levels[1..])
     && levels[0].numLocals == |Visible(levels)|
     && forall i :: 0 <= i < |levels[0].bindings| ==> levels[0].bindings[i].index == levels[0].numLocals - 1 - i)
  }

  lemma {:induction false} DeclaredLength(bs: seq<Binding>)
    ensures |Declared(bs)| == |bs|
  {
    if bs != [] {
      DeclaredLength(bs[1..]);
    }
  }

  /** A binding that holds a slot: the block and the place in it. */
  ghost predicate Holds(levels: seq<Level>, i: nat, j: nat, slot: nat) {
    i < |levels| && j < |levels[i].bindings| && levels[i].bindings[j].index == slot
  }

  /** The visible bindings occupy every slot below `numLocals`, each exactly once, and
      the slot's name is the one the declaration order gives it. */
  lemma {:induction false} EverySlotOnce(levels: seq<Level>, slot: nat) returns (i: nat, j: nat)
    requires Packed(levels) && levels != [] && slot < levels[0].numLocals
    ensures Holds(levels, i, j, slot) && levels[i].bindings[j].name == Visible(levels)[slot]
    ensures forall i1: nat, j1: nat :: Holds(levels, i1, j1, slot) ==> i1 == i && j1 == j
  {
    var top, outer := levels[0], levels[1..];
    DeclaredLength(top.bindings);
    var base := |Visible(outer)|;
    if slot >= base {
      i, j := 0, top.numLocals - 1 - slot;
      DeclaredAt(top.bindings, j);
      forall i1: nat, j1: nat | Holds(levels, i1, j1, slot)
        ensures i1 == 0 && j1 == j
      {
        if i1 > 0 {
          assert levels[i1] == outer[i1 - 1];
          SlotsBelow(outer, i1 - 1, j1);
        }
      }
    } else {
      var i0, j0 := EverySlotOnce(outer, slot);
      i, j := i0 + 1, j0;
      assert Visible(levels)[slot] == Visible(outer)[slot];
      forall i1: nat, j1: nat | Holds(levels, i1, j1, slot)
        ensures i1 == i && j1 == j
      {
        assert i1 > 0;
        assert Holds(outer, i1 - 1, j1, slot);
      }
    }
  }

  lemma {:induction false} DeclaredAt(bs: seq<Binding>, j: nat)
    requires j < |bs|
    ensures |Declared(bs)| == |bs| && Declared(bs)[|bs| - 1 - j] == bs[j].name
  {
    DeclaredLength(bs[1..]);
    if j > 0 {
      DeclaredAt(bs[1..], j - 1);
    }
  }

  lemma {:induction false} SlotsBelow(levels: seq<Level>, i: nat, j: nat)
    requires Packed(levels) && i < |levels| && j < |levels[i].bindings|
    ensures levels[i].bindings[j].index < |Visible(levels)|
  {
    DeclaredLength(levels[0].bindings);
    if i > 0 {
      SlotsBelow(levels[1..], i - 1, j);
    }
  }

  lemma LastIndexStep(ns: seq<Name>, y: Name, x: Name)
    ensures LastIndex(ns + [y], x) == if y == x then Some(|ns|) else LastIndex(ns, x)
  {
    assert (ns + [y])[..|ns|] == ns;
  }

  class FunctionState {
    /** Innermost block first; never empty. */
    var levels: seq<Level>
    /** The most slots in use at any time so far. */
    var numLocals: nat

    ghost predicate Valid()
      reads this
    {
      && levels != []
      && Packed(levels)
      && levels[0].numLocals <= numLocals
    }

    ghost function Names(): seq<Name>
      reads this
    {
      Visible(levels)
    }

    constructor ()
      ensures Valid() && Names() == [] && |levels| == 1 && numLocals == 0
    {
      levels, numLocals := [Level([], 0)], 0;
    }

    method PushScope()
      requires Valid()
      modifies this
      ensures Valid() && Names() == old(Names()) && numLocals == old(numLocals)
      ensures |levels| == |old(levels)| + 1 && levels[1..] == old(levels)
    {
      levels := [Level([], levels[0].numLocals)] + levels;
      assert Names() == old(Names()) + [];
    }

    /** Bindings of the closed block are forgotten, their slots are free again. */
    method PopScope()
      requires Valid() && |levels| > 1
      modifies this
      ensures Valid() && levels == old(levels)[1..] && numLocals == old(numLocals)
    {
      DeclaredLength(levels[0].bindings);
      levels := levels[1..];
    }

    /** Binds a name to the next slot of the innermost block. */
    method AddBinding(x: Name) returns (slot: nat)
      requires Valid()
      modifies this
      ensures Valid() && slot == |old(Names())| && slot < numLocals
      ensures Names() == old(Names()) + [x] && levels != [] && levels[1..] == old(levels)[1..]
      ensures numLocals == Max(old(numLocals), |Names()|)
    {
      var top := levels[0];
      slot := top.numLocals;
      var top1 := Level([Binding(x, slot)] + top.bindings, top.numLocals + 1);
      assert top1.bindings[1..] == top.bindings;
      assert Visible([top1] + levels[1..]) == Visible(levels) + [x];
      levels := [top1] + levels[1..];
      if top1.numLocals > numLocals {
        numLocals := top1.numLocals;
      }
    }

    /** The slot of the innermost binding of `x`. */
    method GetBinding(x: Name) returns (slot: Option<nat>)
      requires Valid()
      ensures slot == LastIndex(Names(), x)
      ensures slot.Some? ==> slot.value < numLocals
    {
      var rest := levels;
      while rest != []
        invariant Packed(rest) && |Visible(rest)| <= numLocals
        invariant LastIndex(Names(), x) == LastIndex(Visible(rest), x)
        decreases |rest|
      {
        var outer, bs := rest[1..], rest[0].bindings;
        var j := 0;
        assert bs[0..] == bs;
        while j < |bs|
          invariant j <= |bs|
          invariant LastIndex(Names(), x) == LastIndex(Visible(outer) + Declared(bs[j..]), x)
        {
          LookAt(outer, bs, j, x);
          if bs[j].name == x {
            DeclaredLength(bs[j + 1..]);
            DeclaredLength(bs);
            return Some(bs[j].index);
          }
          j := j + 1;
        }
        assert Visible(outer) + Declared(bs[j..]) == Visible(outer);
        rest := outer;
      }
      return None;
    }
  }

  lemma LookAt(outer: seq<Level>, bs: seq<Binding>, j: nat, x: Name)
    requires j < |bs|
    ensures LastIndex(Visible(outer) + Declared(bs[j..]), x)
         == if bs[j].name == x then Some(|Visible(outer)| + |Declared(bs[j + 1..])|)
            else LastIndex(Visible(outer) + Declared(bs[j + 1..]), x)
  {
    var ns := Visible(outer) + Declared(bs[j + 1..]);
    assert bs[j..][1..] == bs[j + 1..];
    assert Visible(outer) + Declared(bs[j..]) == ns + [bs[j].name];
    LastIndexStep(ns, bs[j].name, x);
  }
}
