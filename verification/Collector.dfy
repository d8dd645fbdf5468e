/** The collector: objects at addresses, threaded on one list, marked through a queue and
    swept by relinking the list in place. */
module Collector {
  import opened Syntax
  import opened Marking
  import opened Termination

  const GROW_FACTOR: nat := 16
  const INITIAL_THRESHOLD: nat := 65536

  datatype Object = Object(next: Option<nat>, mark: bool, size: nat, body: Body)
  type Memory = map<nat, Object>

  function Bodies(m: Memory): Store { map o | o in m :: m[o].body }

  function Marks(m: Memory): set<nat> { set o | o in m && m[o].mark }

  // ----- the list of allocated objects -----

  /** From `head`, the objects `list` follow one another, and then comes `tail`. */
  ghost predicate Segment(m: Memory, head: Option<nat>, list: seq<nat>, tail: Option<nat>)
    decreases list
  {
    if list == [] then head == tail
    else head == Some(list[0]) && list[0] in m && Segment(m, m[list[0]].next, list[1..], tail)
  }

  ghost predicate Distinct(list: seq<nat>) { forall i, j :: 0 <= i < j < |list| ==> list[i] != list[j] }

  function Sizes(m: Memory, list: seq<nat>): nat
    requires forall o :: o in list ==> o in m
    decreases list
  {
    if list == [] then 0 else m[list[0]].size + Sizes(m, list[1..])
  }

  function Keep(list: seq<nat>, keep: set<nat>): seq<nat> {
    if list == [] then [] else (if list[0] in keep then [list[0]] else []) + Keep(list[1..], keep)
  }

  lemma {:induction false} SegmentMembers(m: Memory, head: Option<nat>, list: seq<nat>, tail: Option<nat>)
    requires Segment(m, head, list, tail)
    ensures forall o :: o in list ==> o in m
    decreases list
  {
    if list != [] {
      SegmentMembers(m, m[list[0]].next, list[1..], tail);
    }
  }

  /** The segment does not see other objects, nor anything but the next pointers. */
  lemma {:induction false} SegmentFrame(m: Memory, m1: Memory, head: Option<nat>, list: seq<nat>, tail: Option<nat>)
    requires Segment(m, head, list, tail) && forall o :: o in list && o in m ==> o in m1 && m1[o].next == m[o].next
    ensures Segment(m1, head, list, tail)
    decreases list
  {
    if list != [] {
      SegmentFrame(m, m1, m[list[0]].next, list[1..], tail);
    }
  }

  lemma {:induction false} SegmentExtend(m: Memory, head: Option<nat>, list: seq<nat>, o: nat)
    requires Segment(m, head, list, Some(o)) && o in m
    ensures Segment(m, head, list + [o], m[o].next)
    decreases list
  {
    if list == [] {
      assert [o][1..] == [];
    } else {
      assert (list + [o])[1..] == list[1..] + [o];
      SegmentExtend(m, m[list[0]].next, list[1..], o);
    }
  }

  /** Storing another pointer in the last object of a segment changes where it ends. */
  lemma {:induction false} SegmentRetarget(m: Memory, head: Option<nat>, list: seq<nat>, tail: Option<nat>, tail1: Option<nat>)
    requires Segment(m, head, list, tail) && list != [] && Distinct(list) && list[|list| - 1] in m
    ensures var last := list[|list| - 1]; Segment(m[last := m[last].(next := tail1)], head, list, tail1)
    decreases list
  {
    var last := list[|list| - 1];
    if |list| > 1 {
      assert list[1..][|list[1..]| - 1] == last;
      SegmentRetarget(m, m[list[0]].next, list[1..], tail, tail1);
      assert list[0] != last;
    }
  }

  lemma {:induction false} KeepAppend(list: seq<nat>, o: nat, keep: set<nat>)
    ensures Keep(list + [o], keep) == Keep(list, keep) + (if o in keep then [o] else [])
    decreases list
  {
    if list == [] {
      assert [o][1..] == [] && Keep([o][1..], keep) == [];
      assert [] + [o] == [o];
    } else {
      assert (list + [o])[0] == list[0] && (list + [o])[1..] == list[1..] + [o];
      KeepAppend(list[1..], o, keep);
    }
  }

  lemma {:induction false} KeepMembers(list: seq<nat>, keep: set<nat>)
    ensures forall o :: o in Keep(list, keep) <==> o in list && o in keep
    ensures Distinct(list) ==> Distinct(Keep(list, keep))
    decreases list
  {
    if list != [] {
      KeepMembers(list[1..], keep);
      assert list == [list[0]] + list[1..];
      if Distinct(list) {
        assert Distinct(list[1..]);
        forall o | o in list[1..]
          ensures o != list[0]
        {
        }
      }
    }
  }

  lemma {:induction false} SizesFrame(m: Memory, m1: Memory, list: seq<nat>)
    requires forall o :: o in list ==> o in m && o in m1 && m1[o].size == m[o].size
    ensures Sizes(m1, list) == Sizes(m, list)
    decreases list
  {
    if list != [] {
      SizesFrame(m, m1, list[1..]);
    }
  }

  /** Nothing but mark bits has changed. */
  ghost predicate SameButMarks(m: Memory, m1: Memory) {
    m1.Keys == m.Keys && forall o :: o in m ==> m1[o] == m[o].(mark := m1[o].mark)
  }

  class Gc {
    var memory: Memory
    var first: Option<nat>
    var amountAllocated: nat
    var nextThreshold: nat
    var queue: seq<Task>
    /** The allocated objects in the order of the list. */
    ghost var list: seq<nat>

    ghost predicate Valid()
      reads this
    {
      && Segment(memory, first, list, None) && Distinct(list)
      && (forall o :: o in list <==> o in memory)
      && amountAllocated == Sizes(memory, list)
      && WellTyped(Bodies(memory))
      && queue == []
    }

    ghost function Now(): St
      reads this
    {
      St(Marks(memory), queue)
    }

    constructor ()
      ensures Valid() && memory == map[] && list == [] && amountAllocated == 0
    {
      memory, first, amountAllocated, queue := map[], None, 0, [];
      nextThreshold := INITIAL_THRESHOLD;
      list := [];
    }

    /** `cb_gc_register`: a new object goes to the front of the list, unmarked. */
    method Register(o: nat, size: nat, body: Body)
      requires Valid() && o !in memory && GoodBody(Bodies(memory), body)
      modifies this
      ensures Valid() && list == [o] + old(list) && memory == old(memory)[o := Object(old(first), false, size, body)]
      ensures amountAllocated == old(amountAllocated) + size
    {
      hide WellTyped, GoodBody;
      ghost var m := memory;
      memory := memory[o := Object(first, false, size, body)];
      SegmentFrame(m, memory, first, list, None);
      SizesFrame(m, memory, list);
      MoreBodies(m, memory, o);
      first := Some(o);
      amountAllocated := amountAllocated + size;
      list := [o] + list;
      assert list[1..] == old(list);
    }

    method QueueMark(t: Task)
      modifies this`queue
      ensures Now() == Push(old(Now()), t)
    {
      queue := [t] + queue;
    }

    method Mark(o: nat)
      requires o in memory
      modifies this`memory
      ensures SameButMarks(old(memory), memory) && Now() == old(Now()).(marked := old(Now()).marked + {o})
    {
      memory := memory[o := memory[o].(mark := true)];
    }

    // ----- marking -----

    method SpecMark(o: nat)
      requires WellTyped(Bodies(memory)) && IsSpec(Bodies(memory), o)
      modifies this`memory, this`queue
      ensures SameButMarks(old(memory), memory) && Now() == MarkSpec(old(Bodies(memory)), old(Now()), o)
      decreases Unmarked(Bodies(memory), Now()), 0
    {
      hide WellTyped;
      ghost var s, m := Bodies(memory), memory;
      if memory[o].mark {
        return;
      }
      Mark(o);
      SameBodies(m, memory);
      assert GoodBody(s, s[o]) by { BodyGood(s, o); }
      var methods := memory[o].body.methods;
      ghost var end := MarkMethods(s, Now(), methods);
      var i := 0;
      assert methods[0..] == methods;
      while i < |methods|
        invariant i <= |methods| && SameButMarks(m, memory) && old(Now()).marked + {o} <= Now().marked
        invariant MarkMethods(s, Now(), methods[i..]) == end
      {
        SameBodies(m, memory);
        assert methods[i..][0] == methods[i] && methods[i..][1..] == methods[i + 1..];
        assert methods[i] in methods;
        if methods[i].Some? {
          FunctionMark(methods[i].value);
        }
        i := i + 1;
      }
    }

    method FunctionMark(o: nat)
      requires WellTyped(Bodies(memory)) && IsFunction(Bodies(memory), o)
      modifies this`memory, this`queue
      ensures SameButMarks(old(memory), memory) && Now() == MarkFunction(old(Bodies(memory)), old(Now()), o)
      decreases Unmarked(Bodies(memory), Now()), 3
    {
      hide WellTyped;
      ghost var s, m := Bodies(memory), memory;
      if memory[o].mark {
        return;
      }
      Mark(o);
      SameBodies(m, memory);
      assert GoodBody(s, s[o]) by { BodyGood(s, o); }
      var f := memory[o].body;
      ghost var m1, end := memory, PushUpvalues(Now(), f.upvalues);
      PushUpvaluesMarks(Now(), f.upvalues);
      var i := 0;
      assert f.upvalues[0..] == f.upvalues;
      while i < |f.upvalues|
        invariant i <= |f.upvalues| && memory == m1
        invariant PushUpvalues(Now(), f.upvalues[i..]) == end
      {
        assert f.upvalues[i..][0] == f.upvalues[i] && f.upvalues[i..][1..] == f.upvalues[i + 1..];
        if f.upvalues[i].Some? {
          QueueMark(ValueTask(f.upvalues[i].value));
        }
        i := i + 1;
      }
      if f.code.Some? {
        CodeMark(f.code.value);
      }
    }

    method CodeMark(o: nat)
      requires WellTyped(Bodies(memory)) && IsCode(Bodies(memory), o)
      modifies this`memory, this`queue
      ensures SameButMarks(old(memory), memory) && Now() == MarkCode(old(Bodies(memory)), old(Now()), o)
      decreases Unmarked(Bodies(memory), Now()), 2
    {
      hide WellTyped;
      ghost var s, m := Bodies(memory), memory;
      Mark(o);
      SameBodies(m, memory);
      assert GoodBody(s, s[o]) by { BodyGood(s, o); }
      var consts := memory[o].body.consts;
      ghost var end := MarkConsts(s, Now(), consts);
      var i := 0;
      assert consts[0..] == consts;
      while i < |consts|
        invariant i <= |consts| && SameButMarks(m, memory) && old(Now()).marked <= Now().marked
        invariant MarkConsts(s, Now(), consts[i..]) == end
      {
        SameBodies(m, memory);
        assert consts[i..][0] == consts[i] && consts[i..][1..] == consts[i + 1..];
        assert GoodConst(s, consts[i]);
        match consts[i]
        case CodeConst(c) =>
          QueueMark(CodeTask(c));
          i := i + 1;
        case SpecConst(c) =>
          SpecMark(c);
          i := i + 1;
        case PlainConst =>
          i := i + 1;
      }
    }

    /** Queues one task for every value, from the first to the last. */
    method QueueValues(values: seq<Value>)
      modifies this`queue
      ensures Now() == PushValues(old(Now()), values)
    {
      ghost var end := PushValues(Now(), values);
      var i := 0;
      assert values[0..] == values;
      while i < |values|
        invariant i <= |values| && PushValues(Now(), values[i..]) == end
      {
        assert values[i..][0] == values[i] && values[i..][1..] == values[i + 1..];
        QueueMark(ValueTask(values[i]));
        i := i + 1;
      }
    }

    method ValueMark(v: Value)
      requires WellTyped(Bodies(memory)) && IsValue(Bodies(memory), v)
      modifies this`memory, this`queue
      ensures SameButMarks(old(memory), memory) && Now() == MarkValue(old(Bodies(memory)), old(Now()), v)
    {
      hide WellTyped;
      if v == Imm {
        return;
      }
      ghost var s, m := Bodies(memory), memory;
      var o := v.o;
      assert GoodBody(s, s[o]) by { BodyGood(s, o); }
      match memory[o].body
      case Plain => Mark(o);
      case Array(values) =>
        Mark(o);
        QueueValues(values);
      case Struct(spec, fields) =>
        if !memory[o].mark {
          Mark(o);
          SameBodies(m, memory);
          SpecMark(spec);
          QueueValues(fields);
        }
      case Spec(_) => SpecMark(o);
      case Function(_, _) => FunctionMark(o);
    }

    method Run(t: Task)
      requires WellTyped(Bodies(memory)) && GoodTask(Bodies(memory), t)
      modifies this`memory, this`queue
      ensures SameButMarks(old(memory), memory) && Now() == RunTask(old(Bodies(memory)), old(Now()), t)
    {
      hide WellTyped;
      match t
      case ValueTask(v) => ValueMark(v);
      case ArrayTask(o) => QueueValues(memory[o].body.values);
      case CodeTask(o) => CodeMark(o);
    }

    /** `evaluate_mark_queue`: ends because no circle of arrays and code is live, and then
        exactly the live objects are marked. */
    method EvaluateMarkQueue(ghost roots: set<nat>)
      requires var s := Bodies(memory);
               && WellTyped(s) && roots <= s.Keys && NoTrap(s, Reach(s, roots))
               && Progress(s, Now(), roots, Reach(s, roots), {})
      modifies this`memory, this`queue
      ensures SameButMarks(old(memory), memory) && queue == [] && Marks(memory) == Reach(old(Bodies(memory)), roots)
    {
      hide WellTyped, Reach, Progress, GuardsLeft, QueueWeight, Ranked, NoTrap, RunTask, AllTargets;
      ghost var s, m, live := Bodies(memory), memory, Reach(Bodies(memory), roots);
      ReachIsClosed(s, roots);
      ghost var rank := RankLive(s, live);
      while queue != []
        invariant SameButMarks(m, memory) && Progress(s, Now(), roots, live, {})
        decreases GuardsLeft(s, Now()), QueueWeight(s, rank, queue)
      {
        SameBodies(m, memory);
        ghost var st := Now();
        ProgressGood(s, st, roots, live);
        StepShrinks(s, roots, live, rank, st);
        StepProgress(s, st, roots, live);
        var t := queue[0];
        assert GoodTask(s, t);
        queue := queue[1..];
        Run(t);
      }
      DrainedIsExact(s, Now(), roots);
    }

    /** `mark`: the roots, then the queue. */
    method MarkAll(roots: seq<Task>)
      requires var s := Bodies(memory);
               && WellTyped(s) && Marks(memory) == {} && queue == []
               && (forall t :: t in roots ==> GoodTask(s, t)) && NoTrap(s, Reach(s, AllTargets(s, roots)))
      modifies this`memory, this`queue
      ensures SameButMarks(old(memory), memory) && queue == []
      ensures Marks(memory) == Reach(old(Bodies(memory)), AllTargets(old(Bodies(memory)), roots))
    {
      hide WellTyped, Reach, Progress, RunTask, AllTargets, NoTrap;
      ghost var s, m := Bodies(memory), memory;
      ghost var end := Begin(s, roots);
      var i := 0;
      assert roots[0..] == roots;
      while i < |roots|
        invariant i <= |roots| && SameButMarks(m, memory) && RunRoots(s, Now(), roots[i..]) == end
      {
        SameBodies(m, memory);
        assert roots[i..][0] == roots[i] && roots[i..][1..] == roots[i + 1..];
        Run(roots[i]);
        i := i + 1;
      }
      SameBodies(m, memory);
      BeginProgress(s, roots);
      EvaluateMarkQueue(AllTargets(s, roots));
    }

    // ----- sweeping -----

    /** `sweep`: the unmarked objects leave the list and are freed, the others stay in
        their order and lose their marks. */
    method Sweep() returns (freed: nat)
      requires Segment(memory, first, list, None) && Distinct(list)
      requires (forall o :: o in list <==> o in memory) && amountAllocated == Sizes(memory, list)
      modifies this`memory, this`first, this`amountAllocated, this`list
      ensures list == Keep(old(list), old(Marks(memory))) && freed == |old(list)| - |list|
      ensures Segment(memory, first, list, None) && Distinct(list)
      ensures (forall o :: o in list <==> o in memory) && amountAllocated == Sizes(memory, list)
      ensures forall o :: o in memory ==> o in old(memory) && Cleared(old(memory)[o], memory[o])
    {
      hide Segment, Swept, Distinct, Sizes, SizesOf, Cleared, Keep;
      ghost var m0, marks, all, kept, rest: seq<nat> := memory, Marks(memory), list, [], list;
      var current, prev := first, None;
      freed := 0;
      assert [] + Keep(list, marks) == Keep(list, marks);
      NoneKept(m0, marks);
      SweepStart(memory, first, list);
      while current.Some?
        invariant Swept(m0, memory, first, kept, rest, current, prev)
        invariant Keep(all, marks) == kept + Keep(rest, marks) && freed + |kept| + |rest| == |all|
        invariant amountAllocated == SizesOf(m0, kept) + SizesOf(m0, rest)
        decreases |rest|
      {
        var o := current.value;
        SweepNext(m0, memory, first, kept, rest, current, prev);
        KeepFirst(rest, marks);
        current := memory[o].next;
        if !memory[o].mark {
          SweepFree(m0, memory, first, kept, rest, Some(o), prev);
          // *prev_ptr = tmp->next
          if prev.None? {
            first := current;
          } else {
            memory := memory[prev.value := memory[prev.value].(next := current)];
          }
          amountAllocated := amountAllocated - memory[o].size;
          memory := memory - {o};
          freed := freed + 1;
        } else {
          SweepKeep(m0, memory, first, kept, rest, Some(o), prev);
          SizesAppend(m0, kept, o);
          memory := memory[o := memory[o].(mark := false)];
          prev := Some(o);
          assert kept + ([o] + Keep(rest[1..], marks)) == kept + [o] + Keep(rest[1..], marks);
          kept := kept + [o];
        }
        rest := rest[1..];
      }
      SweepEnd(m0, memory, first, kept, rest, prev);
      NoneKept(m0, marks);
      assert kept + [] == kept;
      list := kept;
    }

    /** `cb_gc_collect`: with all marks clear before, exactly the objects that the roots
        reach stay, in their old order, unchanged and with all marks clear again. */
    method Collect(roots: seq<Task>) returns (freed: nat)
      requires var s := Bodies(memory);
               && Valid() && Marks(memory) == {}
               && (forall t :: t in roots ==> GoodTask(s, t)) && NoTrap(s, Reach(s, AllTargets(s, roots)))
      modifies this
      ensures Valid() && Marks(memory) == {} && nextThreshold == GROW_FACTOR * amountAllocated
      ensures var s := old(Bodies(memory));
              var live := Reach(s, AllTargets(s, roots));
              && list == Keep(old(list), live) && freed == |old(list)| - |list|
              && (forall o :: o in memory <==> o in old(memory) && o in live)
              && (forall o :: o in memory ==> memory[o].body == old(memory)[o].body && memory[o].size == old(memory)[o].size)
    {
      hide Segment, Distinct, Keep, Reach, NoTrap, AllTargets, WellTyped, Progress;
      ghost var s, m, live := Bodies(memory), memory, Reach(Bodies(memory), AllTargets(Bodies(memory), roots));
      MarkAll(roots);
      ghost var m1 := memory;
      SegmentFrame(m, m1, first, list, None);
      SizesFrame(m, m1, list);
      BeginProgress(s, roots);
      ReachIsClosed(s, AllTargets(s, roots));
      freed := Sweep();
      KeepMembers(old(list), live);
      SurvivorsGood(m, memory, live);
      nextThreshold := amountAllocated * GROW_FACTOR;
    }
  }

  /** Objects that survive refer to survivors only. */
  lemma SurvivorsGood(m: Memory, m1: Memory, live: set<nat>)
    requires WellTyped(Bodies(m)) && Closed(Bodies(m), live)
    requires forall o :: o in m1 <==> o in m && o in live
    requires forall o :: o in m1 ==> m1[o].body == m[o].body
    ensures WellTyped(Bodies(m1))
  {
    hide GoodBody, Kids;
    var s, s1 := Bodies(m), Bodies(m1);
    forall o | o in s1
      ensures GoodBody(s1, s1[o])
    {
      assert GoodBody(s, s[o]) && Kids(s[o]) <= live;
      KidsKeep(s, s1, s[o]);
    }
  }

  lemma KidsKeep(s: Store, s1: Store, b: Body)
    requires GoodBody(s, b) && forall k :: k in Kids(b) ==> k in s ==> k in s1 && s1[k] == s[k]
    ensures GoodBody(s1, b)
  {
    match b
    case Plain =>
    case Array(vs) =>
      forall v | v in vs
        ensures IsValue(s1, v)
      {
        assert v.Ref? ==> v.o in Refs(vs);
      }
    case Struct(spec, fs) =>
      forall v | v in fs
        ensures IsValue(s1, v)
      {
        assert v.Ref? ==> v.o in Refs(fs);
      }
    case Spec(ms) =>
      forall x | x in ms && x.Some?
        ensures IsFunction(s1, x.value)
      {
        assert x.value in Kids(b);
      }
    case Function(us, code) =>
      forall u | u in us && u.Some?
        ensures IsValue(s1, u.value)
      {
        assert u.value.Ref? ==> u.value.o in UpRefs(us);
      }
    case Code(cs) =>
      forall c | c in cs
        ensures GoodConst(s1, c)
      {
        assert GoodConst(s, c);
        assert !c.PlainConst? ==> c.o in ConstRefs(cs);
      }
  }

  /** A kept object: only its mark and its place in the list may differ. */
  predicate Cleared(a: Object, b: Object) { !b.mark && b.size == a.size && b.body == a.body }

  function LastOf(list: seq<nat>): Option<nat> { if list == [] then None else Some(list[|list| - 1]) }

  ghost function SizesOf(m: Memory, list: seq<nat>): nat {
    if forall o :: o in list ==> o in m then Sizes(m, list) else 0
  }

  /** In the middle of a sweep: `kept` are the objects that stay, `rest` is still to be
      gone through, `current` is the first of the rest and `prev` the last one kept. */
  ghost predicate Swept(m0: Memory, m: Memory, first: Option<nat>, kept: seq<nat>, rest: seq<nat>, current: Option<nat>, prev: Option<nat>) {
    && prev == LastOf(kept) && Distinct(kept) && Distinct(rest) && (forall o :: o in kept ==> o !in rest)
    && Segment(m, first, kept, current) && Segment(m, current, rest, None)
    && (forall o :: o in m <==> o in kept || o in rest)
    && (forall o :: o in kept ==> o in m0 && o in m && Cleared(m0[o], m[o]))
    && (forall o :: o in rest ==> o in m0 && o in m && m[o] == m0[o])
  }

  lemma NoneKept(m: Memory, marks: set<nat>)
    ensures Keep([], marks) == [] && SizesOf(m, []) == 0
  {
  }

  lemma KeepFirst(list: seq<nat>, keep: set<nat>)
    requires list != []
    ensures Keep(list, keep) == if list[0] in keep then [list[0]] + Keep(list[1..], keep) else Keep(list[1..], keep)
  {
  }

  lemma SweepStart(m: Memory, first: Option<nat>, list: seq<nat>)
    requires Segment(m, first, list, None) && Distinct(list) && forall o :: o in list <==> o in m
    ensures Swept(m, m, first, [], list, first, None) && SizesOf(m, list) == Sizes(m, list)
  {
  }

  /** The next object of the list. */
  lemma SweepNext(m0: Memory, m: Memory, first: Option<nat>, kept: seq<nat>, rest: seq<nat>, current: Option<nat>, prev: Option<nat>)
    requires Swept(m0, m, first, kept, rest, current, prev) && current.Some?
    ensures rest != [] && current == Some(rest[0]) && rest[0] in m && rest[0] in m0 && m[rest[0]] == m0[rest[0]]
    ensures Segment(m, m[rest[0]].next, rest[1..], None)
    ensures prev.Some? ==> prev.value in m && prev.value != rest[0]
    ensures SizesOf(m0, rest) == m0[rest[0]].size + SizesOf(m0, rest[1..])
    ensures forall o :: o in kept ==> o in m0
  {
    assert forall o :: o in rest[1..] ==> o in rest;
  }

  lemma {:induction false} SizesAppend(m: Memory, list: seq<nat>, o: nat)
    requires o in m && forall x :: x in list ==> x in m
    ensures SizesOf(m, list + [o]) == SizesOf(m, list) + m[o].size
    decreases list
  {
    if list == [] {
      assert [o][1..] == [];
    } else {
      assert (list + [o])[0] == list[0] && (list + [o])[1..] == list[1..] + [o];
      SizesAppend(m, list[1..], o);
    }
  }

  /** Memory after `*prev_ptr = tmp->next`. */
  function Relinked(m: Memory, prev: Option<nat>, next: Option<nat>): Memory
    requires prev.Some? ==> prev.value in m
  {
    if prev.None? then m else m[prev.value := m[prev.value].(next := next)]
  }

  lemma SweepFree(m0: Memory, m: Memory, first: Option<nat>, kept: seq<nat>, rest: seq<nat>, current: Option<nat>, prev: Option<nat>)
    requires Swept(m0, m, first, kept, rest, current, prev) && current.Some?
    requires current.value in m && (prev.Some? ==> prev.value in m)
    ensures var o := current.value;
            Swept(m0, Relinked(m, prev, m[o].next) - {o}, if prev.None? then m[o].next else first, kept, rest[1..], m[o].next, prev)
  {
    hide Segment, SizesOf, Distinct;
    SweepNext(m0, m, first, kept, rest, current, prev);
    DistinctTail(rest);
    var o, next := current.value, m[current.value].next;
    FreeSegments(m, first, kept, rest[1..], o, prev);
    assert rest == [o] + rest[1..];
  }

  lemma FreeSegments(m: Memory, first: Option<nat>, kept: seq<nat>, rest: seq<nat>, o: nat, prev: Option<nat>)
    requires o in m && Segment(m, first, kept, Some(o)) && Segment(m, m[o].next, rest, None)
    requires Distinct(kept) && o !in kept && o !in rest && (forall x :: x in kept ==> x !in rest)
    requires prev == LastOf(kept) && (prev.Some? ==> prev.value in m)
    ensures var m2 := Relinked(m, prev, m[o].next) - {o};
            && Segment(m2, if prev.None? then m[o].next else first, kept, m[o].next)
            && Segment(m2, m[o].next, rest, None)
  {
    hide Segment;
    var next := m[o].next;
    var m1 := Relinked(m, prev, next);
    if prev.None? {
      NoSegment(m1 - {o}, next);
    } else {
      SegmentRetarget(m, first, kept, Some(o), next);
      SegmentFrame(m1, m1 - {o}, first, kept, next);
    }
    SegmentFrame(m, m1 - {o}, next, rest, None);
  }

  lemma DistinctTail(list: seq<nat>)
    requires Distinct(list) && list != []
    ensures Distinct(list[1..]) && list[0] !in list[1..]
  {
  }

  lemma DistinctMore(list: seq<nat>, o: nat)
    requires Distinct(list) && o !in list
    ensures Distinct(list + [o])
  {
  }

  lemma NoSegment(m: Memory, head: Option<nat>)
    ensures Segment(m, head, [], head)
  {
  }

  lemma SweepKeep(m0: Memory, m: Memory, first: Option<nat>, kept: seq<nat>, rest: seq<nat>, current: Option<nat>, prev: Option<nat>)
    requires Swept(m0, m, first, kept, rest, current, prev) && current.Some? && current.value in m
    ensures var o := current.value;
            Swept(m0, m[o := m[o].(mark := false)], first, kept + [o], rest[1..], m[o].next, Some(o))
  {
    hide Segment, Distinct;
    SweepNext(m0, m, first, kept, rest, current, prev);
    DistinctTail(rest);
    var o := current.value;
    var m1 := m[o := m[o].(mark := false)];
    assert rest == [o] + rest[1..];
    DistinctMore(kept, o);
    SegmentExtend(m, first, kept, o);
    SegmentFrame(m, m1, first, kept + [o], m[o].next);
    SegmentFrame(m, m1, m[o].next, rest[1..], None);
  }

  lemma SweepEnd(m0: Memory, m: Memory, first: Option<nat>, kept: seq<nat>, rest: seq<nat>, prev: Option<nat>)
    requires Swept(m0, m, first, kept, rest, None, prev)
    ensures rest == [] && Segment(m, first, kept, None) && Distinct(kept)
    ensures forall o :: o in m <==> o in kept
    ensures forall o :: o in m ==> o in m0 && Cleared(m0[o], m[o])
    ensures SizesOf(m0, kept) == Sizes(m, kept) && SizesOf(m0, rest) == 0
  {
    SizesFrame(m0, m, kept);
  }

  lemma BodyGood(s: Store, o: nat)
    requires WellTyped(s) && o in s
    ensures GoodBody(s, s[o])
  {
  }

  lemma SameBodies(m: Memory, m1: Memory)
    requires SameButMarks(m, m1)
    ensures Bodies(m1) == Bodies(m)
  {
  }

  lemma MoreBodies(m: Memory, m1: Memory, o: nat)
    requires WellTyped(Bodies(m)) && o !in m && o in m1 && m1.Keys == m.Keys + {o}
    requires (forall x :: x in m ==> m1[x].body == m[x].body) && GoodBody(Bodies(m), m1[o].body)
    ensures WellTyped(Bodies(m1))
  {
    var s, s1 := Bodies(m), Bodies(m1);
    forall x | x in s1
      ensures GoodBody(s1, s1[x])
    {
      if x != o {
        assert GoodBody(s, s[x]);
      }
      StillGood(s, s1, s1[x]);
    }
  }

  lemma StillGood(s: Store, s1: Store, b: Body)
    requires GoodBody(s, b) && forall x :: x in s ==> x in s1 && s1[x] == s[x]
    ensures GoodBody(s1, b)
  {
    match b
    case Code(cs) =>
      forall c | c in cs
        ensures GoodConst(s1, c)
      {
        assert GoodConst(s, c);
      }
    case _ =>
  }
}
