/** When the mark queue runs empty: never if a set of arrays and code objects that refer
    to one another in a circle can be reached, and always otherwise. */
module Termination {
  import opened Syntax
  import opened Marking

  /** References from one array or code object to another. */
  function Loose(s: Store, o: nat): set<nat> {
    if o in s && Unguarded(s[o]) then set k | k in Kids(s[o]) && k in s && Unguarded(s[k]) else {}
  }

  /** Every member refers to a member: from a finite such set there is no way out. */
  ghost predicate Trap(s: Store, t: set<nat>) {
    t != {} && forall o :: o in t ==> o in s && Unguarded(s[o]) && Loose(s, o) * t != {}
  }

  ghost predicate NoTrap(s: Store, live: set<nat>) { forall t :: t <= live ==> !Trap(s, t) }

  /** References among arrays and code objects go down in rank. */
  ghost predicate Ranked(s: Store, live: set<nat>, rank: map<nat, nat>) {
    forall o :: o in live && o in s && Unguarded(s[o]) ==> o in rank && forall k :: k in Loose(s, o) ==> k in rank && rank[k] < rank[o]
  }

  /** Without a trap there is a ranking: repeatedly take away an object that refers to none
      of the rest. */
  lemma {:induction false} RankOf(s: Store, u: set<nat>) returns (rank: map<nat, nat>)
    requires NoTrap(s, u) && forall o :: o in u ==> o in s && Unguarded(s[o])
    ensures rank.Keys == u && forall o, k :: o in u && k in u && k in Loose(s, o) ==> rank[k] < rank[o]
    decreases |u|
  {
    hide Loose;
    if u == {} {
      rank := map[];
    } else {
      assert !Trap(s, u);
      var x :| x in u && Loose(s, x) * u == {};
      var rest := u - {x};
      assert NoTrap(s, rest);
      var rank0 := RankOf(s, rest);
      rank := RankMore(s, u, x, rank0);
    }
  }

  lemma {:induction false} RankMore(s: Store, u: set<nat>, x: nat, rank0: map<nat, nat>) returns (rank: map<nat, nat>)
    requires x in u && Loose(s, x) * u == {} && rank0.Keys == u - {x}
    requires forall o, k :: o in u - {x} && k in u - {x} && k in Loose(s, o) ==> rank0[k] < rank0[o]
    ensures rank.Keys == u && forall o, k :: o in u && k in u && k in Loose(s, o) ==> rank[k] < rank[o]
  {
    hide Loose;
    rank := map o | o in u :: if o == x then 0 else rank0[o] + 1;
    forall o, k | o in u && k in u && k in Loose(s, o)
      ensures rank[k] < rank[o]
    {
      assert k in Loose(s, o) * u;
    }
  }

  lemma {:induction false} RankLive(s: Store, live: set<nat>) returns (rank: map<nat, nat>)
    requires NoTrap(s, live) && Closed(s, live)
    ensures Ranked(s, live, rank)
  {
    var u := set o | o in live && o in s && Unguarded(s[o]);
    rank := RankOf(s, u);
    forall o | o in live && o in s && Unguarded(s[o])
      ensures o in rank && forall k :: k in Loose(s, o) ==> k in rank && rank[k] < rank[o]
    {
      assert o in u;
      forall k | k in Loose(s, o)
        ensures k in u
      {
      }
    }
  }

  // ----- how much is left to do -----

  /** The tasks that marking an object can still lead to through arrays and code alone;
      `r` bounds the rank. */
  ghost function Weight(s: Store, rank: map<nat, nat>, o: nat, r: nat): nat
    decreases r, 0
  {
    if o in s && o in rank && rank[o] < r then
      match s[o]
      case Array(vs) => 1 + ValuesWeight(s, rank, vs, rank[o])
      case Code(cs) => 1 + ConstsWeight(s, rank, cs, rank[o])
      case _ => 1
    else 1
  }

  ghost function ValuesWeight(s: Store, rank: map<nat, nat>, vs: seq<Value>, r: nat): nat
    decreases r, 1, vs
  {
    if vs == [] then 0
    else (if vs[0].Ref? then Weight(s, rank, vs[0].o, r) else 1) + ValuesWeight(s, rank, vs[1..], r)
  }

  ghost function ConstsWeight(s: Store, rank: map<nat, nat>, cs: seq<Const>, r: nat): nat
    decreases r, 1, cs
  {
    if cs == [] then 0
    else (if cs[0].CodeConst? then Weight(s, rank, cs[0].o, r) else 0) + ConstsWeight(s, rank, cs[1..], r)
  }

  ghost function Full(s: Store, rank: map<nat, nat>, o: nat): nat {
    Weight(s, rank, o, if o in rank then rank[o] + 1 else 0)
  }

  ghost function TaskWeight(s: Store, rank: map<nat, nat>, t: Task): nat {
    match t
    case ValueTask(v) => if v.Ref? then Full(s, rank, v.o) else 1
    case ArrayTask(o) => Full(s, rank, o)
    case CodeTask(o) => Full(s, rank, o)
  }

  ghost function QueueWeight(s: Store, rank: map<nat, nat>, q: seq<Task>): nat {
    if q == [] then 0 else TaskWeight(s, rank, q[0]) + QueueWeight(s, rank, q[1..])
  }

  /** Objects that stop marking and have not been marked yet. */
  ghost function GuardsLeft(s: Store, st: St): set<nat> { set o | o in s && Guarded(s[o]) && o !in st.marked }

  lemma {:induction false} Shrinks(s: Store, st: St, st1: St, o: nat)
    requires o in s && Guarded(s[o]) && o !in st.marked && o in st1.marked && st.marked <= st1.marked
    ensures GuardsLeft(s, st1) < GuardsLeft(s, st)
  {
    assert o in GuardsLeft(s, st) && o !in GuardsLeft(s, st1);
  }

  lemma {:induction false} PushWeight(s: Store, rank: map<nat, nat>, st: St, t: Task)
    ensures QueueWeight(s, rank, Push(st, t).queue) == TaskWeight(s, rank, t) + QueueWeight(s, rank, st.queue)
  {
    assert Push(st, t).queue[1..] == st.queue;
  }

  /** With a ranking, the elements of an array weigh what they weigh on their own. */
  lemma {:induction false} PushValuesWeight(s: Store, rank: map<nat, nat>, st: St, vs: seq<Value>, r: nat)
    requires forall v :: v in vs && v.Ref? ==> v.o in s && (Unguarded(s[v.o]) ==> v.o in rank && rank[v.o] < r)
    ensures QueueWeight(s, rank, PushValues(st, vs).queue) == ValuesWeight(s, rank, vs, r) + QueueWeight(s, rank, st.queue)
    decreases vs
  {
    hide QueueWeight, Weight;
    if vs != [] {
      assert vs[0] in vs;
      PushWeight(s, rank, st, ValueTask(vs[0]));
      if vs[0].Ref? {
        SameWeight(s, rank, vs[0].o, r);
      }
      PushValuesWeight(s, rank, Push(st, ValueTask(vs[0])), vs[1..], r);
    }
  }

  lemma {:induction false} SameWeight(s: Store, rank: map<nat, nat>, o: nat, r: nat)
    requires o in s && (Unguarded(s[o]) ==> o in rank && rank[o] < r)
    ensures Weight(s, rank, o, r) == Full(s, rank, o)
  {
  }

  /** Going through a constant pool marks a guarded object, or queues what it weighs. */
  lemma {:induction false} ConstsQueued(s: Store, rank: map<nat, nat>, st: St, cs: seq<Const>, r: nat)
    requires WellTyped(s) && (forall c :: c in cs ==> GoodConst(s, c))
    requires forall c :: c in cs && c.CodeConst? ==> c.o in rank && rank[c.o] < r
    ensures var st1 := MarkConsts(s, st, cs);
            || GuardsLeft(s, st1) < GuardsLeft(s, st)
            || (GuardsLeft(s, st1) == GuardsLeft(s, st)
                && QueueWeight(s, rank, st1.queue) == ConstsWeight(s, rank, cs, r) + QueueWeight(s, rank, st.queue))
    decreases cs
  {
    hide QueueWeight, Weight, GuardsLeft;
    if cs != [] {
      assert cs[0] in cs && GoodConst(s, cs[0]);
      match cs[0]
      case CodeConst(o) =>
        PushWeight(s, rank, st, CodeTask(o));
        SameWeight(s, rank, o, r);
        SameGuards(s, st, Push(st, CodeTask(o)));
        ConstsQueued(s, rank, Push(st, CodeTask(o)), cs[1..], r);
      case SpecConst(o) =>
        var st1 := MarkSpec(s, st, o);
        ConstsQueued(s, rank, st1, cs[1..], r);
        if o !in st.marked {
          MarkSpecMarks(s, st, o);
          Shrinks(s, st, st1, o);
        }
      case PlainConst => ConstsQueued(s, rank, st, cs[1..], r);
    }
  }

  lemma {:induction false} SameGuards(s: Store, st: St, st1: St)
    requires st1.marked == st.marked
    ensures GuardsLeft(s, st1) == GuardsLeft(s, st)
  {
  }

  lemma {:induction false} MarkSpecMarks(s: Store, st: St, o: nat)
    requires WellTyped(s) && IsSpec(s, o)
    ensures o in MarkSpec(s, st, o).marked
  {
  }

  lemma {:induction false} MarkFunctionMarks(s: Store, st: St, o: nat)
    requires WellTyped(s) && IsFunction(s, o)
    ensures o in MarkFunction(s, st, o).marked
  {
    PushUpvaluesMarks(st.(marked := st.marked + {o}), s[o].upvalues);
  }

  /** Every task marks a guarded object for the first time, or leaves less to do. */
  lemma {:induction false} TaskShrinks(s: Store, live: set<nat>, rank: map<nat, nat>, st: St, t: Task)
    requires WellTyped(s) && GoodTask(s, t) && Closed(s, live) && Ranked(s, live, rank) && !t.ArrayTask? && Targets(s, t) <= live
    ensures var st1 := RunTask(s, st, t);
            || GuardsLeft(s, st1) < GuardsLeft(s, st)
            || (GuardsLeft(s, st1) == GuardsLeft(s, st)
                && QueueWeight(s, rank, st1.queue) < TaskWeight(s, rank, t) + QueueWeight(s, rank, st.queue))
  {
    hide QueueWeight, GuardsLeft, Ranked;
    match t
    case ValueTask(Imm) =>
    case ValueTask(Ref(o)) =>
      WeighsOne(s, rank, o);
      if s[o].Array? {
        ArrayShrinks(s, live, rank, st, o);
      } else if s[o].Plain? {
        PlainGuards(s, st, o);
      } else if o in st.marked {
      } else {
        ValueMarks(s, st, o);
        Shrinks(s, st, MarkValue(s, st, Ref(o)), o);
      }
    case CodeTask(o) => CodeShrinks(s, live, rank, st, o);
  }

  lemma {:induction false} WeighsOne(s: Store, rank: map<nat, nat>, o: nat)
    ensures Full(s, rank, o) >= 1
  {
  }

  lemma {:induction false} PlainGuards(s: Store, st: St, o: nat)
    requires o in s && !Guarded(s[o])
    ensures GuardsLeft(s, st.(marked := st.marked + {o})) == GuardsLeft(s, st)
  {
  }

  lemma {:induction false} ValueMarks(s: Store, st: St, o: nat)
    requires WellTyped(s) && IsValue(s, Ref(o)) && Guarded(s[o])
    ensures o in MarkValue(s, st, Ref(o)).marked && st.marked <= MarkValue(s, st, Ref(o)).marked
  {
    match s[o]
    case Struct(spec, fs) =>
      assert GoodBody(s, s[o]);
      if o !in st.marked {
        PushValuesMarks(MarkSpec(s, st.(marked := st.marked + {o}), spec), fs);
      }
    case Spec(_) => MarkSpecMarks(s, st, o);
    case Function(_, _) => MarkFunctionMarks(s, st, o);
  }

  lemma {:induction false} ArrayShrinks(s: Store, live: set<nat>, rank: map<nat, nat>, st: St, o: nat)
    requires WellTyped(s) && Closed(s, live) && Ranked(s, live, rank) && o in live && o in s && s[o].Array?
    ensures var st1 := MarkValue(s, st, Ref(o));
            && GuardsLeft(s, st1) == GuardsLeft(s, st)
            && QueueWeight(s, rank, st1.queue) < Full(s, rank, o) + QueueWeight(s, rank, st.queue)
  {
    hide QueueWeight, GuardsLeft;
    var vs := s[o].values;
    var st0 := st.(marked := st.marked + {o});
    assert GoodBody(s, s[o]);
    forall v | v in vs && v.Ref?
      ensures v.o in s && (Unguarded(s[v.o]) ==> v.o in rank && rank[v.o] < rank[o])
    {
      assert v.o in Refs(vs);
      if Unguarded(s[v.o]) {
        assert v.o in Loose(s, o);
      }
    }
    PlainGuards(s, st, o);
    PushValuesMarks(st0, vs);
    SameGuards(s, st0, PushValues(st0, vs));
    PushValuesWeight(s, rank, st0, vs, rank[o]);
  }

  lemma {:induction false} CodeShrinks(s: Store, live: set<nat>, rank: map<nat, nat>, st: St, o: nat)
    requires WellTyped(s) && Closed(s, live) && Ranked(s, live, rank) && o in live && IsCode(s, o)
    ensures var st1 := MarkCode(s, st, o);
            || GuardsLeft(s, st1) < GuardsLeft(s, st)
            || (GuardsLeft(s, st1) == GuardsLeft(s, st)
                && QueueWeight(s, rank, st1.queue) < Full(s, rank, o) + QueueWeight(s, rank, st.queue))
  {
    hide QueueWeight, GuardsLeft;
    var cs := s[o].consts;
    assert GoodBody(s, s[o]);
    forall c | c in cs && c.CodeConst?
      ensures c.o in rank && rank[c.o] < rank[o]
    {
      assert GoodConst(s, c);
      assert c.o in ConstRefs(cs);
      assert c.o in Loose(s, o);
    }
    PlainGuards(s, st, o);
    ConstsQueued(s, rank, st.(marked := st.marked + {o}), cs, rank[o]);
  }

  // ----- ending -----

  ghost function Steps(s: Store, st: St, n: nat): (r: St)
    requires WellTyped(s) && GoodQueue(s, st.queue)
    ensures GoodQueue(s, r.queue)
  {
    if n == 0 then st
    else
      var st1 := Steps(s, st, n - 1);
      StepGood(s, st1);
      Step(s, st1)
  }

  lemma {:induction false} StepGood(s: Store, st: St)
    requires WellTyped(s) && GoodQueue(s, st.queue)
    ensures GoodQueue(s, Step(s, st).queue)
  {
    hide RunTask;
    if st.queue != [] {
      var st0 := st.(queue := st.queue[1..]);
      assert GoodTask(s, st.queue[0]);
      WholeClosed(s);
      TargetsExist(s, st.queue[0]);
      TaskAdvances(s, st0, st.queue[0], s.Keys);
      var front: seq<Task> :| Step(s, st).queue == front + st0.queue && GoodQueue(s, front) && AllTargets(s, front) <= s.Keys;
      GoodAppend(s, front, st0.queue);
    }
  }

  lemma {:induction false} WholeClosed(s: Store)
    requires WellTyped(s)
    ensures Closed(s, s.Keys)
  {
    forall o, k | o in s && k in Kids(s[o])
      ensures k in s
    {
      KidsExist(s, o, k);
    }
  }

  lemma {:induction false} TargetsExist(s: Store, t: Task)
    requires WellTyped(s) && GoodTask(s, t)
    ensures Targets(s, t) <= s.Keys
  {
    WholeClosed(s);
    if t.ArrayTask? {
      assert Kids(s[t.o]) <= s.Keys;
    }
  }

  lemma {:induction false} StepsFirst(s: Store, st: St, n: nat)
    requires WellTyped(s) && GoodQueue(s, st.queue)
    ensures GoodQueue(s, Step(s, st).queue) && Steps(s, st, n + 1) == Steps(s, Step(s, st), n)
  {
    StepGood(s, st);
    if n > 0 {
      StepsFirst(s, st, n - 1);
    }
  }

  ghost function Begin(s: Store, roots: seq<Task>): St
    requires WellTyped(s) && forall t :: t in roots ==> GoodTask(s, t)
  {
    RunRoots(s, St({}, []), roots)
  }

  /** After the roots have been run: nothing is marked or queued but what they reach. */
  lemma {:induction false} BeginProgress(s: Store, roots: seq<Task>)
    requires WellTyped(s) && forall t :: t in roots ==> GoodTask(s, t)
    ensures AllTargets(s, roots) <= s.Keys
    ensures Progress(s, Begin(s, roots), AllTargets(s, roots), Reach(s, AllTargets(s, roots)), {})
  {
    hide Reach;
    forall t | t in roots
      ensures Targets(s, t) <= s.Keys
    {
      TargetsExist(s, t);
    }
    ReachIsClosed(s, AllTargets(s, roots));
    NoTargets(s);
    RootsProgress(s, St({}, []), roots, AllTargets(s, roots), Reach(s, AllTargets(s, roots)));
  }

  lemma {:induction false} StepsProgress(s: Store, st: St, roots: set<nat>, live: set<nat>, n: nat)
    requires WellTyped(s) && Closed(s, live) && Progress(s, st, roots, live, {})
    ensures Progress(s, Steps(s, st, n), roots, live, {})
  {
    hide Progress, Step;
    assert GoodQueue(s, st.queue) by { ProgressGood(s, st, roots, live); }
    if n > 0 {
      StepsProgress(s, st, roots, live, n - 1);
      ProgressGood(s, Steps(s, st, n - 1), roots, live);
      StepProgress(s, Steps(s, st, n - 1), roots, live);
    }
  }

  lemma {:induction false} ProgressGood(s: Store, st: St, roots: set<nat>, live: set<nat>)
    requires Progress(s, st, roots, live, {})
    ensures GoodQueue(s, st.queue)
  {
  }

  /** One step of the loop leaves less to do. */
  lemma {:induction false} StepShrinks(s: Store, roots: set<nat>, live: set<nat>, rank: map<nat, nat>, st: St)
    requires WellTyped(s) && Closed(s, live) && Ranked(s, live, rank) && Progress(s, st, roots, live, {}) && st.queue != []
    ensures var st1 := Step(s, st);
            || GuardsLeft(s, st1) < GuardsLeft(s, st)
            || (GuardsLeft(s, st1) == GuardsLeft(s, st) && QueueWeight(s, rank, st1.queue) < QueueWeight(s, rank, st.queue))
  {
    hide RunTask, GuardsLeft;
    var t, st0 := st.queue[0], st.(queue := st.queue[1..]);
    assert st.queue == [t] + st0.queue;
    TargetsAppend(s, [t], st0.queue);
    OneTarget(s, t);
    SameGuards(s, st, st0);
    TaskShrinks(s, live, rank, st0, t);
  }

  lemma {:induction false} Drains(s: Store, roots: set<nat>, live: set<nat>, rank: map<nat, nat>, st: St) returns (n: nat)
    requires WellTyped(s) && Closed(s, live) && Ranked(s, live, rank) && Progress(s, st, roots, live, {})
    ensures Steps(s, st, n).queue == []
    decreases GuardsLeft(s, st), QueueWeight(s, rank, st.queue)
  {
    hide Step, GuardsLeft, QueueWeight, Progress, Ranked;
    ProgressGood(s, st, roots, live);
    if st.queue == [] {
      n := 0;
    } else {
      StepShrinks(s, roots, live, rank, st);
      StepProgress(s, st, roots, live);
      var m := Drains(s, roots, live, rank, Step(s, st));
      StepsFirst(s, st, m);
      n := m + 1;
    }
  }

  // ----- never ending -----

  ghost predicate InTrap(trap: set<nat>, t: Task) {
    match t
    case ValueTask(v) => v.Ref? && v.o in trap
    case ArrayTask(_) => false
    case CodeTask(o) => o in trap
  }

  ghost predicate TrapQueued(trap: set<nat>, q: seq<Task>) { exists t :: t in q && InTrap(trap, t) }

  /** Going on from a state in which a member of the trap waits, one still waits; and
      marking a member makes one wait. */
  ghost predicate KeepsTrap(trap: set<nat>, st: St, st1: St) {
    && st.marked <= st1.marked
    && (TrapQueued(trap, st.queue) ==> TrapQueued(trap, st1.queue))
    && ((st1.marked - st.marked) * trap != {} ==> TrapQueued(trap, st1.queue))
  }

  lemma {:induction false} KeepsTrapTrans(trap: set<nat>, a: St, b: St, c: St)
    requires KeepsTrap(trap, a, b) && KeepsTrap(trap, b, c)
    ensures KeepsTrap(trap, a, c)
  {
    hide TrapQueued;
    if (c.marked - a.marked) * trap != {} && (c.marked - b.marked) * trap == {} {
      var x :| x in (c.marked - a.marked) * trap;
      assert x !in (c.marked - b.marked) * trap;
      assert x in (b.marked - a.marked) * trap;
    }
  }

  lemma {:induction false} PushTrap(trap: set<nat>, st: St, t: Task)
    ensures KeepsTrap(trap, st, Push(st, t)) && (InTrap(trap, t) ==> TrapQueued(trap, Push(st, t).queue))
  {
    if TrapQueued(trap, st.queue) {
      var x :| x in st.queue && InTrap(trap, x);
      assert x in Push(st, t).queue;
    }
    assert t in Push(st, t).queue;
  }

  lemma {:induction false} PushValuesTrap(trap: set<nat>, st: St, vs: seq<Value>)
    ensures KeepsTrap(trap, st, PushValues(st, vs))
    ensures Refs(vs) * trap != {} ==> TrapQueued(trap, PushValues(st, vs).queue)
    decreases vs
  {
    hide TrapQueued;
    if vs != [] {
      var st1 := Push(st, ValueTask(vs[0]));
      PushTrap(trap, st, ValueTask(vs[0]));
      PushValuesTrap(trap, st1, vs[1..]);
      KeepsTrapTrans(trap, st, st1, PushValues(st, vs));
      assert vs == [vs[0]] + vs[1..];
      assert Refs(vs) == Refs(vs[1..]) + (if vs[0].Ref? then {vs[0].o} else {});
    }
  }

  lemma {:induction false} PushUpvaluesTrap(trap: set<nat>, st: St, us: seq<Option<Value>>)
    ensures KeepsTrap(trap, st, PushUpvalues(st, us))
    decreases us
  {
    hide TrapQueued;
    if us != [] && us[0].Some? {
      var st1 := Push(st, ValueTask(us[0].value));
      PushTrap(trap, st, ValueTask(us[0].value));
      PushUpvaluesTrap(trap, st1, us[1..]);
      KeepsTrapTrans(trap, st, st1, PushUpvalues(st, us));
    } else if us != [] {
      PushUpvaluesTrap(trap, st, us[1..]);
    }
  }

  /** Marking an object that is not in the trap changes nothing for it. */
  lemma {:induction false} MarkOther(trap: set<nat>, st: St, o: nat, st1: St)
    requires KeepsTrap(trap, st.(marked := st.marked + {o}), st1) && (o in trap ==> TrapQueued(trap, st1.queue))
    ensures KeepsTrap(trap, st, st1)
  {
    hide TrapQueued;
    var st0 := st.(marked := st.marked + {o});
    if (st1.marked - st.marked) * trap != {} && o !in trap {
      var x :| x in (st1.marked - st.marked) * trap;
      assert x in (st1.marked - st0.marked) * trap;
    }
  }

  lemma {:induction false} SpecTrap(s: Store, trap: set<nat>, st: St, o: nat)
    requires WellTyped(s) && IsSpec(s, o) && Trap(s, trap)
    ensures KeepsTrap(trap, st, MarkSpec(s, st, o))
    decreases Unmarked(s, st), 0
  {
    hide TrapQueued, KeepsTrap;
    KeepsTrapZero(trap, st);
    if o !in st.marked {
      assert GoodBody(s, s[o]);
      MethodsTrap(s, trap, st.(marked := st.marked + {o}), s[o].methods);
      MarkOther(trap, st, o, MarkSpec(s, st, o));
    }
  }

  lemma {:induction false} KeepsTrapZero(trap: set<nat>, st: St)
    ensures KeepsTrap(trap, st, st)
  {
  }

  lemma {:induction false} MethodsTrap(s: Store, trap: set<nat>, st: St, ms: seq<Option<nat>>)
    requires WellTyped(s) && (forall m :: m in ms && m.Some? ==> IsFunction(s, m.value)) && Trap(s, trap)
    ensures KeepsTrap(trap, st, MarkMethods(s, st, ms))
    decreases Unmarked(s, st), 4, ms
  {
    hide TrapQueued, KeepsTrap, Trap;
    KeepsTrapZero(trap, st);
    if ms != [] {
      var st1 := if ms[0].Some? then MarkFunction(s, st, ms[0].value) else st;
      if ms[0].Some? {
        FunctionTrap(s, trap, st, ms[0].value);
      }
      MethodsTrap(s, trap, st1, ms[1..]);
      KeepsTrapTrans(trap, st, st1, MarkMethods(s, st, ms));
    }
  }

  lemma {:induction false} FunctionTrap(s: Store, trap: set<nat>, st: St, o: nat)
    requires WellTyped(s) && IsFunction(s, o) && Trap(s, trap)
    ensures KeepsTrap(trap, st, MarkFunction(s, st, o))
    decreases Unmarked(s, st), 3
  {
    hide TrapQueued, KeepsTrap;
    KeepsTrapZero(trap, st);
    if o !in st.marked {
      var st0 := st.(marked := st.marked + {o});
      var st1 := PushUpvalues(st0, s[o].upvalues);
      assert GoodBody(s, s[o]);
      PushUpvaluesMarks(st0, s[o].upvalues);
      PushUpvaluesTrap(trap, st0, s[o].upvalues);
      if s[o].code.Some? {
        CodeTrap(s, trap, st1, s[o].code.value);
        KeepsTrapTrans(trap, st0, st1, MarkFunction(s, st, o));
      }
      MarkOther(trap, st, o, MarkFunction(s, st, o));
    }
  }

  lemma {:induction false} CodeTrap(s: Store, trap: set<nat>, st: St, o: nat)
    requires WellTyped(s) && IsCode(s, o) && Trap(s, trap)
    ensures KeepsTrap(trap, st, MarkCode(s, st, o)) && (o in trap ==> TrapQueued(trap, MarkCode(s, st, o).queue))
    decreases Unmarked(s, st), 2
  {
    hide TrapQueued, KeepsTrap;
    var cs := s[o].consts;
    assert GoodBody(s, s[o]);
    ConstsTrap(s, trap, st.(marked := st.marked + {o}), cs);
    if o in trap {
      var k :| k in Loose(s, o) * trap;
      var c :| c in cs && !c.PlainConst? && c.o == k;
      assert GoodConst(s, c);
      assert CodeConst(k) in cs;
    }
    MarkOther(trap, st, o, MarkCode(s, st, o));
  }

  lemma {:induction false} ConstsTrap(s: Store, trap: set<nat>, st: St, cs: seq<Const>)
    requires WellTyped(s) && (forall c :: c in cs ==> GoodConst(s, c)) && Trap(s, trap)
    ensures KeepsTrap(trap, st, MarkConsts(s, st, cs))
    ensures (exists k :: k in trap && CodeConst(k) in cs) ==> TrapQueued(trap, MarkConsts(s, st, cs).queue)
    decreases Unmarked(s, st), 1, cs
  {
    hide TrapQueued, Trap;
    KeepsTrapZero(trap, st);
    if cs != [] {
      assert GoodConst(s, cs[0]);
      var st1 := match cs[0]
                 case CodeConst(o) => Push(st, CodeTask(o))
                 case SpecConst(o) => MarkSpec(s, st, o)
                 case PlainConst => st;
      match cs[0] {
        case CodeConst(o) => PushTrap(trap, st, CodeTask(o));
        case SpecConst(o) => SpecTrap(s, trap, st, o);
        case PlainConst =>
      }
      ConstsTrap(s, trap, st1, cs[1..]);
      KeepsTrapTrans(trap, st, st1, MarkConsts(s, st, cs));
      if k :| k in trap && CodeConst(k) in cs {
        if CodeConst(k) != cs[0] {
          assert CodeConst(k) in cs[1..];
        }
      }
    }
  }

  /** Running a task for a member of the trap makes another one wait. */
  lemma {:induction false} TaskTrap(s: Store, trap: set<nat>, st: St, t: Task)
    requires WellTyped(s) && GoodTask(s, t) && Trap(s, trap)
    ensures KeepsTrap(trap, st, RunTask(s, st, t)) && (InTrap(trap, t) ==> TrapQueued(trap, RunTask(s, st, t).queue))
  {
    hide TrapQueued, KeepsTrap;
    match t
    case ValueTask(Imm) => KeepsTrapZero(trap, st);
    case ValueTask(Ref(o)) => ValueTrap(s, trap, st, o);
    case ArrayTask(o) => PushValuesTrap(trap, st, s[o].values);
    case CodeTask(o) => CodeTrap(s, trap, st, o);
  }

  lemma {:induction false} ValueTrap(s: Store, trap: set<nat>, st: St, o: nat)
    requires WellTyped(s) && IsValue(s, Ref(o)) && Trap(s, trap)
    ensures KeepsTrap(trap, st, MarkValue(s, st, Ref(o))) && (o in trap ==> TrapQueued(trap, MarkValue(s, st, Ref(o)).queue))
  {
    hide TrapQueued, KeepsTrap;
    var st0, st1 := st.(marked := st.marked + {o}), MarkValue(s, st, Ref(o));
    assert GoodBody(s, s[o]);
    KeepsTrapZero(trap, st0);
    KeepsTrapZero(trap, st);
    match s[o]
    case Plain => MarkOther(trap, st, o, st1);
    case Array(vs) =>
      PushValuesTrap(trap, st0, vs);
      if o in trap {
        var k :| k in Loose(s, o) * trap;
        assert k in Refs(vs) * trap;
      }
      MarkOther(trap, st, o, st1);
    case Struct(spec, fs) =>
      if o !in st.marked {
        SpecTrap(s, trap, st0, spec);
        PushValuesTrap(trap, MarkSpec(s, st0, spec), fs);
        KeepsTrapTrans(trap, st0, MarkSpec(s, st0, spec), st1);
        MarkOther(trap, st, o, st1);
      }
    case Spec(_) => SpecTrap(s, trap, st, o);
    case Function(_, _) => FunctionTrap(s, trap, st, o);
  }

  lemma {:induction false} StepTrap(s: Store, trap: set<nat>, st: St)
    requires WellTyped(s) && GoodQueue(s, st.queue) && Trap(s, trap)
    ensures KeepsTrap(trap, st, Step(s, st))
  {
    hide RunTask;
    KeepsTrapZero(trap, st);
    if st.queue != [] {
      var t, st0 := st.queue[0], st.(queue := st.queue[1..]);
      assert GoodTask(s, t);
      TaskTrap(s, trap, st0, t);
      if TrapQueued(trap, st.queue) && !InTrap(trap, t) {
        var x :| x in st.queue && InTrap(trap, x);
        assert x in st0.queue;
      }
    }
  }

  lemma {:induction false} StepsTrap(s: Store, trap: set<nat>, st: St, n: nat)
    requires WellTyped(s) && GoodQueue(s, st.queue) && Trap(s, trap)
    ensures KeepsTrap(trap, st, Steps(s, st, n))
  {
    hide TrapQueued, KeepsTrap, Step;
    KeepsTrapZero(trap, st);
    if n > 0 {
      StepsTrap(s, trap, st, n - 1);
      StepTrap(s, trap, Steps(s, st, n - 1));
      KeepsTrapTrans(trap, st, Steps(s, st, n - 1), Steps(s, st, n));
    }
  }

  lemma {:induction false} RootsTrap(s: Store, trap: set<nat>, st: St, roots: seq<Task>)
    requires WellTyped(s) && (forall t :: t in roots ==> GoodTask(s, t)) && Trap(s, trap)
    ensures KeepsTrap(trap, st, RunRoots(s, st, roots))
    decreases roots
  {
    hide TrapQueued, KeepsTrap, RunTask;
    KeepsTrapZero(trap, st);
    if roots != [] {
      assert roots[0] in roots;
      TaskTrap(s, trap, st, roots[0]);
      RootsTrap(s, trap, RunTask(s, st, roots[0]), roots[1..]);
      KeepsTrapTrans(trap, st, RunTask(s, st, roots[0]), RunRoots(s, st, roots));
    }
  }

  // ----- the result -----

  ghost predicate MarkingEnds(s: Store, roots: seq<Task>)
    requires WellTyped(s) && forall t :: t in roots ==> GoodTask(s, t)
  {
    BeginProgress(s, roots);
    exists n :: Steps(s, Begin(s, roots), n).queue == []
  }

  /** Marking ends exactly when no circle made only of arrays and code objects can be
      reached from the roots. */
  lemma {:induction false} MarkingEndsIff(s: Store, roots: seq<Task>)
    requires WellTyped(s) && forall t :: t in roots ==> GoodTask(s, t)
    ensures MarkingEnds(s, roots) <==> NoTrap(s, Reach(s, AllTargets(s, roots)))
  {
    hide Reach, AllTargets, Progress, Steps, Trap;
    var live := Reach(s, AllTargets(s, roots));
    var st := Begin(s, roots);
    BeginProgress(s, roots);
    ReachIsClosed(s, AllTargets(s, roots));
    ProgressGood(s, st, AllTargets(s, roots), live);
    if NoTrap(s, live) {
      var rank := RankLive(s, live);
      var n := Drains(s, AllTargets(s, roots), live, rank, st);
    }
    if MarkingEnds(s, roots) {
      var n :| Steps(s, st, n).queue == [];
      forall t | t <= live
        ensures !Trap(s, t)
      {
        if Trap(s, t) {
          Trapped(s, roots, t, n);
        }
      }
    }
  }

  lemma {:induction false} Trapped(s: Store, roots: seq<Task>, trap: set<nat>, n: nat)
    requires WellTyped(s) && (forall t :: t in roots ==> GoodTask(s, t)) && Trap(s, trap)
    requires trap <= Reach(s, AllTargets(s, roots)) && GoodQueue(s, Begin(s, roots).queue)
    ensures Steps(s, Begin(s, roots), n).queue != []
  {
    hide Reach, AllTargets, Progress, Steps;
    var live := Reach(s, AllTargets(s, roots));
    var st := Begin(s, roots);
    if Steps(s, st, n).queue == [] {
      BeginProgress(s, roots);
      ReachIsClosed(s, AllTargets(s, roots));
      StepsProgress(s, st, AllTargets(s, roots), live, n);
      DrainedIsExact(s, Steps(s, st, n), AllTargets(s, roots));
      var x :| x in trap;
      assert x in (Steps(s, st, n).marked - {}) * trap;
      RootsTrap(s, trap, St({}, []), roots);
      StepsTrap(s, trap, st, n);
      KeepsTrapTrans(trap, St({}, []), st, Steps(s, st, n));
      assert false;
    }
  }

  // ----- traps are circles -----

  /** References that lead from each to the next and from the last to the first. */
  ghost predicate Circle(s: Store, p: seq<nat>) {
    |p| > 0 && forall i :: 0 <= i < |p| ==> p[if i + 1 < |p| then i + 1 else 0] in Loose(s, p[i])
  }

  lemma {:induction false} CircleIsTrap(s: Store, p: seq<nat>)
    requires Circle(s, p)
    ensures Trap(s, set o | o in p)
  {
    var t := set o | o in p;
    assert p[0] in t;
    forall o | o in t
      ensures o in s && Unguarded(s[o]) && Loose(s, o) * t != {}
    {
      var i :| 0 <= i < |p| && p[i] == o;
      assert p[if i + 1 < |p| then i + 1 else 0] in Loose(s, o) * t;
    }
  }

  /** Going on long enough inside a trap, one comes back to where one has been. */
  lemma {:induction false} TrapHasCircle(s: Store, t: set<nat>) returns (p: seq<nat>)
    requires Trap(s, t)
    ensures Circle(s, p) && forall o :: o in p ==> o in t
  {
    var w := Wander(s, t, |t|);
    var i, j := Repeats(w, t);
    p := w[i..j];
    forall k | 0 <= k < |p|
      ensures p[if k + 1 < |p| then k + 1 else 0] in Loose(s, p[k])
    {
      assert w[i + k + 1] in Loose(s, w[i + k]);
    }
  }

  lemma {:induction false} Wander(s: Store, t: set<nat>, n: nat) returns (w: seq<nat>)
    requires Trap(s, t)
    ensures |w| == n + 1 && (forall o :: o in w ==> o in t) && forall i :: 0 <= i < n ==> w[i + 1] in Loose(s, w[i])
  {
    hide Loose;
    if n == 0 {
      var o :| o in t;
      w := [o];
    } else {
      var w0 := Wander(s, t, n - 1);
      assert w0[n - 1] in t;
      var k :| k in Loose(s, w0[n - 1]) * t;
      w := w0 + [k];
    }
  }

  lemma {:induction false} Repeats(w: seq<nat>, t: set<nat>) returns (i: nat, j: nat)
    requires |w| > |t| && forall o :: o in w ==> o in t
    ensures i < j < |w| && w[i] == w[j]
    decreases |w|
  {
    var x, rest := w[0], w[1..];
    if x in rest {
      i := 0;
      var k :| 0 <= k < |rest| && rest[k] == x;
      j := k + 1;
    } else {
      var i0, j0 := Repeats(rest, t - {x});
      i, j := i0 + 1, j0 + 1;
    }
  }

  /** An array that contains itself, once reachable, keeps the loop going for ever. */
  lemma {:induction false} SelfContainedArray()
    ensures var s: Store := map[0 := Array([Ref(0)])];
            WellTyped(s) && !MarkingEnds(s, [ValueTask(Ref(0))])
  {
    var s: Store := map[0 := Array([Ref(0)])];
    var roots := [ValueTask(Ref(0))];
    assert Refs([Ref(0)]) == {0};
    assert Loose(s, 0) == {0};
    assert Trap(s, {0}) by { assert 0 in Loose(s, 0) * {0}; }
    OneTarget(s, roots[0]);
    ReachIsClosed(s, AllTargets(s, roots));
    assert {0} <= Reach(s, AllTargets(s, roots));
    MarkingEndsIff(s, roots);
  }

  /** Holding an array from C keeps its elements, not the array itself. */
  lemma {:induction false} HeldArrayIsNotLive(s: Store, o: nat)
    requires WellTyped(s) && o in s && s[o].Array?
    ensures o in Reach(s, AllTargets(s, [ArrayTask(o)])) <==> exists k :: k in Kids(s[o]) && Reachable(s, {k}, o)
  {
    OneTarget(s, ArrayTask(o));
    if o in Reach(s, Kids(s[o])) {
      var p :| Path(s, p) && p[0] in Kids(s[o]) && p[|p| - 1] == o;
      assert Reachable(s, {p[0]}, o);
    }
    if k :| k in Kids(s[o]) && Reachable(s, {k}, o) {
      var p :| Path(s, p) && p[0] in {k} && p[|p| - 1] == o;
      assert p[0] in Kids(s[o]);
    }
  }

  /** So an empty array that is held is lost: it is not marked, and neither is anything else. */
  lemma HeldEmptyArrayIsLost() returns (s: Store)
    ensures s == map[0 := Array([])] && WellTyped(s)
    ensures Reach(s, AllTargets(s, [ArrayTask(0)])) == {}
  {
    s := map[0 := Array([])];
    assert WellTyped(s);
    assert Kids(s[0]) == {};
    OneTarget(s, ArrayTask(0));
  }
}
