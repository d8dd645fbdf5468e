/** The marking phase of the collector over an object graph: what each marking procedure
    does to the mark bits and to the queue, what is marked in the end, and when marking
    ends at all. */
module Marking {
  import opened Syntax

  /** A value is immediate or refers to an object by its address. */
  datatype Value = Imm | Ref(o: nat)

  /** What a constant pool entry refers to: the code of a module or function, or a struct
      spec, which is marked at once. */
  datatype Const = CodeConst(o: nat) | SpecConst(o: nat) | PlainConst

  /** Objects by kind; strings, byte arrays and user data refer to nothing.  Of the
      upvalues of a function only closed ones hold a value. */
  datatype Body =
    | Plain
    | Array(values: seq<Value>)
    | Struct(spec: nat, fields: seq<Value>)
    | Spec(methods: seq<Option<nat>>)
    | Function(upvalues: seq<Option<Value>>, code: Option<nat>)
    | Code(consts: seq<Const>)

  type Store = map<nat, Body>

  /** An entry of the mark queue: a marking function with its argument. */
  datatype Task = ValueTask(v: Value) | ArrayTask(o: nat) | CodeTask(o: nat)

  predicate IsValue(s: Store, v: Value) { v.Ref? ==> v.o in s && !s[v.o].Code? }
  predicate IsCode(s: Store, o: nat) { o in s && s[o].Code? }
  predicate IsSpec(s: Store, o: nat) { o in s && s[o].Spec? }
  predicate IsFunction(s: Store, o: nat) { o in s && s[o].Function? }

  predicate GoodConst(s: Store, c: Const) {
    match c
    case CodeConst(o) => IsCode(s, o)
    case SpecConst(o) => IsSpec(s, o)
    case PlainConst => true
  }

  predicate GoodBody(s: Store, b: Body) {
    match b
    case Plain => true
    case Array(vs) => forall v :: v in vs ==> IsValue(s, v)
    case Struct(spec, fs) => IsSpec(s, spec) && forall v :: v in fs ==> IsValue(s, v)
    case Spec(ms) => forall m :: m in ms && m.Some? ==> IsFunction(s, m.value)
    case Function(us, code) => (forall u :: u in us && u.Some? ==> IsValue(s, u.value)) && (code.Some? ==> IsCode(s, code.value))
    case Code(cs) => forall c :: c in cs ==> GoodConst(s, c)
  }

  predicate GoodTask(s: Store, t: Task) {
    match t
    case ValueTask(v) => IsValue(s, v)
    case ArrayTask(o) => o in s && s[o].Array?
    case CodeTask(o) => IsCode(s, o)
  }

  /** A held array is gone through at once; it never waits in the queue. */
  predicate GoodQueue(s: Store, q: seq<Task>) { forall t :: t in q ==> GoodTask(s, t) && !t.ArrayTask? }

  /** Pointers lead to objects of the right kind. */
  ghost predicate WellTyped(s: Store) { forall o :: o in s ==> GoodBody(s, s[o]) }

  /** Kinds whose marking stops at an object already marked. */
  predicate Guarded(b: Body) { b.Struct? || b.Spec? || b.Function? }

  /** Kinds that are gone through every time. */
  predicate Unguarded(b: Body) { b.Array? || b.Code? }

  // ----- the marking procedures -----

  datatype St = St(marked: set<nat>, queue: seq<Task>)

  function Push(st: St, t: Task): St { st.(queue := [t] + st.queue) }

  /** Queues one task for every value, one after the other. */
  function PushValues(st: St, vs: seq<Value>): St
    decreases vs
  {
    if vs == [] then st else PushValues(Push(st, ValueTask(vs[0])), vs[1..])
  }

  function PushUpvalues(st: St, us: seq<Option<Value>>): St
    decreases us
  {
    if us == [] then st
    else PushUpvalues(if us[0].Some? then Push(st, ValueTask(us[0].value)) else st, us[1..])
  }

  ghost function Unmarked(s: Store, st: St): set<nat> { s.Keys - st.marked }

  ghost function MarkSpec(s: Store, st: St, o: nat): (r: St)
    requires WellTyped(s) && IsSpec(s, o)
    ensures st.marked <= r.marked
    decreases Unmarked(s, st), 0
  {
    if o in st.marked then st else MarkMethods(s, st.(marked := st.marked + {o}), s[o].methods)
  }

  ghost function MarkMethods(s: Store, st: St, ms: seq<Option<nat>>): (r: St)
    requires WellTyped(s) && forall m :: m in ms && m.Some? ==> IsFunction(s, m.value)
    ensures st.marked <= r.marked
    decreases Unmarked(s, st), 4, ms
  {
    if ms == [] then st
    else MarkMethods(s, if ms[0].Some? then MarkFunction(s, st, ms[0].value) else st, ms[1..])
  }

  ghost function MarkFunction(s: Store, st: St, o: nat): (r: St)
    requires WellTyped(s) && IsFunction(s, o)
    ensures st.marked <= r.marked
    decreases Unmarked(s, st), 3
  {
    if o in st.marked then st
    else
      var st1 := PushUpvalues(st.(marked := st.marked + {o}), s[o].upvalues);
      PushUpvaluesMarks(st.(marked := st.marked + {o}), s[o].upvalues);
      if s[o].code.Some? then MarkCode(s, st1, s[o].code.value) else st1
  }

  ghost function MarkCode(s: Store, st: St, o: nat): (r: St)
    requires WellTyped(s) && IsCode(s, o)
    ensures st.marked <= r.marked && o in r.marked
    decreases Unmarked(s, st), 2
  {
    MarkConsts(s, st.(marked := st.marked + {o}), s[o].consts)
  }

  ghost function MarkConsts(s: Store, st: St, cs: seq<Const>): (r: St)
    requires WellTyped(s) && forall c :: c in cs ==> GoodConst(s, c)
    ensures st.marked <= r.marked
    decreases Unmarked(s, st), 1, cs
  {
    if cs == [] then st
    else
      assert GoodConst(s, cs[0]);
      var st1 := match cs[0]
                 case CodeConst(o) => Push(st, CodeTask(o))
                 case SpecConst(o) => MarkSpec(s, st, o)
                 case PlainConst => st;
      MarkConsts(s, st1, cs[1..])
  }

  lemma {:induction false} PushUpvaluesMarks(st: St, us: seq<Option<Value>>)
    ensures PushUpvalues(st, us).marked == st.marked
    decreases us
  {
    if us != [] {
      PushUpvaluesMarks(if us[0].Some? then Push(st, ValueTask(us[0].value)) else st, us[1..]);
    }
  }

  lemma {:induction false} PushValuesMarks(st: St, vs: seq<Value>)
    ensures PushValues(st, vs).marked == st.marked
    decreases vs
  {
    if vs != [] {
      PushValuesMarks(Push(st, ValueTask(vs[0])), vs[1..]);
    }
  }

  /** `cb_value_mark`. */
  ghost function MarkValue(s: Store, st: St, v: Value): St
    requires WellTyped(s) && IsValue(s, v)
  {
    match v
    case Imm => st
    case Ref(o) =>
      match s[o]
      case Plain => st.(marked := st.marked + {o})
      case Array(vs) => PushValues(st.(marked := st.marked + {o}), vs)
      case Struct(spec, fs) =>
        if o in st.marked then st
        else PushValues(MarkSpec(s, st.(marked := st.marked + {o}), spec), fs)
      case Spec(_) => MarkSpec(s, st, o)
      case Function(_, _) => MarkFunction(s, st, o)
  }

  ghost function RunTask(s: Store, st: St, t: Task): St
    requires WellTyped(s) && GoodTask(s, t)
  {
    match t
    case ValueTask(v) => MarkValue(s, st, v)
    case ArrayTask(o) => PushValues(st, s[o].values)
    case CodeTask(o) => MarkCode(s, st, o)
  }

  // ----- reachability -----

  function Refs(vs: seq<Value>): set<nat> { set v | v in vs && v.Ref? :: v.o }

  function UpRefs(us: seq<Option<Value>>): set<nat> { set u | u in us && u.Some? && u.value.Ref? :: u.value.o }

  function ConstRefs(cs: seq<Const>): set<nat> { set c | c in cs && !c.PlainConst? :: c.o }

  /** What an object refers to. */
  function Kids(b: Body): set<nat> {
    match b
    case Plain => {}
    case Array(vs) => Refs(vs)
    case Struct(spec, fs) => {spec} + Refs(fs)
    case Spec(ms) => set m | m in ms && m.Some? :: m.value
    case Function(us, code) => UpRefs(us) + (if code.Some? then {code.value} else {})
    case Code(cs) => ConstRefs(cs)
  }

  /** What running a task reaches first: for a held array, its elements, not itself. */
  function Targets(s: Store, t: Task): set<nat> {
    match t
    case ValueTask(v) => if v.Ref? then {v.o} else {}
    case ArrayTask(o) => if o in s then Kids(s[o]) else {}
    case CodeTask(o) => {o}
  }

  function AllTargets(s: Store, q: seq<Task>): set<nat> { set t, o | t in q && o in Targets(s, t) :: o }

  ghost predicate Closed(s: Store, live: set<nat>) { forall o :: o in live ==> o in s && Kids(s[o]) <= live }

  /** A chain of references. */
  predicate Path(s: Store, p: seq<nat>) {
    |p| > 0 && (forall i :: 0 <= i < |p| ==> p[i] in s) && forall i :: 0 <= i < |p| - 1 ==> p[i + 1] in Kids(s[p[i]])
  }

  ghost predicate Reachable(s: Store, roots: set<nat>, o: nat) {
    exists p :: Path(s, p) && p[0] in roots && p[|p| - 1] == o
  }

  ghost function Reach(s: Store, roots: set<nat>): set<nat> { set o | o in s && Reachable(s, roots, o) }

  lemma {:induction false} ReachIsClosed(s: Store, roots: set<nat>)
    requires WellTyped(s) && roots <= s.Keys
    ensures Closed(s, Reach(s, roots)) && roots <= Reach(s, roots)
  {
    forall o, k | o in Reach(s, roots) && k in Kids(s[o])
      ensures k in Reach(s, roots)
    {
      var p :| Path(s, p) && p[0] in roots && p[|p| - 1] == o;
      KidsExist(s, o, k);
      assert Path(s, p + [k]);
    }
    forall o | o in roots
      ensures o in Reach(s, roots)
    {
      assert Path(s, [o]);
    }
  }

  lemma {:induction false} KidsExist(s: Store, o: nat, k: nat)
    requires WellTyped(s) && o in s && k in Kids(s[o])
    ensures k in s
  {
    assert GoodBody(s, s[o]);
  }

  /** The reachable objects are in every closed set that contains the roots. */
  lemma {:induction false} ReachIsLeast(s: Store, roots: set<nat>, live: set<nat>)
    requires Closed(s, live) && roots <= live
    ensures Reach(s, roots) <= live
  {
    forall o | o in Reach(s, roots)
      ensures o in live
    {
      var p :| Path(s, p) && p[0] in roots && p[|p| - 1] == o;
      PathStays(s, p, live, |p| - 1);
    }
  }

  lemma {:induction false} PathStays(s: Store, p: seq<nat>, live: set<nat>, i: nat)
    requires Closed(s, live) && Path(s, p) && p[0] in live && i < |p|
    ensures p[i] in live
  {
    if i > 0 {
      PathStays(s, p, live, i - 1);
    }
  }

  // ----- what a marking step leaves behind -----

  /** From `st` to `st1`: tasks were put in front of the queue; objects newly marked have
      their references marked or queued; nothing outside `live` was touched. */
  ghost predicate Advances(s: Store, st: St, st1: St, live: set<nat>) {
    && st.marked <= st1.marked && st1.marked - st.marked <= live && st1.marked <= st.marked + s.Keys
    && (exists front: seq<Task> :: st1.queue == front + st.queue && GoodQueue(s, front) && AllTargets(s, front) <= live)
    && forall o :: o in st1.marked - st.marked ==> o in s && Kids(s[o]) <= st1.marked + AllTargets(s, st1.queue)
  }

  lemma {:induction false} AdvancesZero(s: Store, st: St, live: set<nat>)
    ensures Advances(s, st, st, live)
  {
    assert st.queue == [] + st.queue;
  }

  lemma {:induction false} TargetsAppend(s: Store, a: seq<Task>, b: seq<Task>)
    ensures AllTargets(s, a + b) == AllTargets(s, a) + AllTargets(s, b)
  {
  }

  lemma {:induction false} AdvancesTrans(s: Store, st: St, st1: St, st2: St, live: set<nat>)
    requires Advances(s, st, st1, live) && Advances(s, st1, st2, live)
    ensures Advances(s, st, st2, live)
  {
    hide AllTargets, GoodQueue;
    var a: seq<Task> :| st1.queue == a + st.queue && GoodQueue(s, a) && AllTargets(s, a) <= live;
    var b: seq<Task> :| st2.queue == b + st1.queue && GoodQueue(s, b) && AllTargets(s, b) <= live;
    TargetsAppend(s, b, a);
    TargetsAppend(s, b, st1.queue);
    GoodAppend(s, b, a);
    assert b + a + st.queue == b + (a + st.queue);
    forall o | o in st2.marked - st.marked
      ensures o in s && Kids(s[o]) <= st2.marked + AllTargets(s, st2.queue)
    {
    }
  }

  lemma {:induction false} GoodAppend(s: Store, a: seq<Task>, b: seq<Task>)
    ensures GoodQueue(s, a + b) <==> GoodQueue(s, a) && GoodQueue(s, b)
  {
    if GoodQueue(s, a + b) {
      forall t | t in a
        ensures GoodTask(s, t) && !t.ArrayTask?
      {
        assert t in a + b;
      }
      forall t | t in b
        ensures GoodTask(s, t) && !t.ArrayTask?
      {
        assert t in a + b;
      }
    }
  }

  /** One more task in front. */
  lemma {:induction false} PushAdvances(s: Store, st: St, t: Task, live: set<nat>)
    requires GoodTask(s, t) && !t.ArrayTask? && Targets(s, t) <= live
    ensures Advances(s, st, Push(st, t), live) && AllTargets(s, Push(st, t).queue) == Targets(s, t) + AllTargets(s, st.queue)
  {
    TargetsAppend(s, [t], st.queue);
    assert AllTargets(s, [t]) == Targets(s, t);
    assert GoodQueue(s, [t]);
  }

  lemma {:induction false} PushValuesAdvances(s: Store, st: St, vs: seq<Value>, live: set<nat>)
    requires WellTyped(s) && (forall v :: v in vs ==> IsValue(s, v)) && Refs(vs) <= live
    ensures Advances(s, st, PushValues(st, vs), live)
    ensures Refs(vs) + AllTargets(s, st.queue) <= AllTargets(s, PushValues(st, vs).queue)
    decreases vs
  {
    hide Advances, AllTargets;
    AdvancesZero(s, st, live);
    if vs != [] {
      var st1 := Push(st, ValueTask(vs[0]));
      assert Refs(vs) == Refs(vs[1..]) + Targets(s, ValueTask(vs[0])) by { assert vs == [vs[0]] + vs[1..]; }
      PushAdvances(s, st, ValueTask(vs[0]), live);
      PushValuesAdvances(s, st1, vs[1..], live);
      AdvancesTrans(s, st, st1, PushValues(st, vs), live);
    }
  }

  lemma {:induction false} PushUpvaluesAdvances(s: Store, st: St, us: seq<Option<Value>>, live: set<nat>)
    requires WellTyped(s) && (forall u :: u in us && u.Some? ==> IsValue(s, u.value)) && UpRefs(us) <= live
    ensures Advances(s, st, PushUpvalues(st, us), live)
    ensures UpRefs(us) + AllTargets(s, st.queue) <= AllTargets(s, PushUpvalues(st, us).queue)
    decreases us
  {
    hide Advances, AllTargets;
    AdvancesZero(s, st, live);
    if us != [] {
      assert us == [us[0]] + us[1..];
      if us[0].Some? {
        var st1 := Push(st, ValueTask(us[0].value));
        assert UpRefs(us) == UpRefs(us[1..]) + Targets(s, ValueTask(us[0].value));
        PushAdvances(s, st, ValueTask(us[0].value), live);
        PushUpvaluesAdvances(s, st1, us[1..], live);
        AdvancesTrans(s, st, st1, PushUpvalues(st, us), live);
      } else {
        assert UpRefs(us) == UpRefs(us[1..]);
        PushUpvaluesAdvances(s, st, us[1..], live);
      }
    }
  }

  /** An object is marked, and then everything it refers to is marked or queued. */
  lemma {:induction false} MarkAdvances(s: Store, st: St, o: nat, st1: St, live: set<nat>)
    requires o in s && o in live && Advances(s, st.(marked := st.marked + {o}), st1, live)
    requires Kids(s[o]) <= st1.marked + AllTargets(s, st1.queue)
    ensures Advances(s, st, st1, live) && o in st1.marked
  {
  }

  lemma {:induction false} TargetsGrow(s: Store, st: St, st1: St, live: set<nat>)
    requires Advances(s, st, st1, live)
    ensures AllTargets(s, st.queue) <= AllTargets(s, st1.queue)
  {
    var a: seq<Task> :| st1.queue == a + st.queue && GoodQueue(s, a) && AllTargets(s, a) <= live;
    TargetsAppend(s, a, st.queue);
  }

  function MethodRefs(ms: seq<Option<nat>>): set<nat> { set m | m in ms && m.Some? :: m.value }

  lemma {:induction false} SpecAdvances(s: Store, st: St, o: nat, live: set<nat>)
    requires WellTyped(s) && IsSpec(s, o) && Closed(s, live) && o in live
    ensures Advances(s, st, MarkSpec(s, st, o), live) && o in MarkSpec(s, st, o).marked
    decreases Unmarked(s, st), 0
  {
    hide Advances, AllTargets;
    if o in st.marked {
      AdvancesZero(s, st, live);
    } else {
      assert GoodBody(s, s[o]) && Kids(s[o]) == MethodRefs(s[o].methods);
      MethodsAdvance(s, st.(marked := st.marked + {o}), s[o].methods, live);
      MarkAdvances(s, st, o, MarkSpec(s, st, o), live);
    }
  }

  lemma {:induction false} MethodsAdvance(s: Store, st: St, ms: seq<Option<nat>>, live: set<nat>)
    requires WellTyped(s) && (forall m :: m in ms && m.Some? ==> IsFunction(s, m.value))
    requires Closed(s, live) && MethodRefs(ms) <= live
    ensures Advances(s, st, MarkMethods(s, st, ms), live) && MethodRefs(ms) <= MarkMethods(s, st, ms).marked
    decreases Unmarked(s, st), 4, ms
  {
    hide Advances, AllTargets;
    AdvancesZero(s, st, live);
    if ms != [] {
      assert ms == [ms[0]] + ms[1..];
      if ms[0].Some? {
        var st1 := MarkFunction(s, st, ms[0].value);
        assert MethodRefs(ms) == MethodRefs(ms[1..]) + {ms[0].value};
        FunctionAdvances(s, st, ms[0].value, live);
        MethodsAdvance(s, st1, ms[1..], live);
        AdvancesTrans(s, st, st1, MarkMethods(s, st, ms), live);
      } else {
        assert MethodRefs(ms) == MethodRefs(ms[1..]);
        MethodsAdvance(s, st, ms[1..], live);
      }
    }
  }

  lemma {:induction false} FunctionAdvances(s: Store, st: St, o: nat, live: set<nat>)
    requires WellTyped(s) && IsFunction(s, o) && Closed(s, live) && o in live
    ensures Advances(s, st, MarkFunction(s, st, o), live) && o in MarkFunction(s, st, o).marked
    decreases Unmarked(s, st), 3
  {
    hide Advances, AllTargets;
    if o in st.marked {
      AdvancesZero(s, st, live);
    } else {
      var st0 := st.(marked := st.marked + {o});
      var f := s[o];
      assert GoodBody(s, f) && UpRefs(f.upvalues) <= Kids(f);
      var st1 := PushUpvalues(st0, f.upvalues);
      PushUpvaluesAdvances(s, st0, f.upvalues, live);
      PushUpvaluesMarks(st0, f.upvalues);
      if f.code.Some? {
        var st2 := MarkCode(s, st1, f.code.value);
        CodeAdvances(s, st1, f.code.value, live);
        TargetsGrow(s, st1, st2, live);
        AdvancesTrans(s, st0, st1, st2, live);
      }
      MarkAdvances(s, st, o, MarkFunction(s, st, o), live);
    }
  }

  lemma {:induction false} CodeAdvances(s: Store, st: St, o: nat, live: set<nat>)
    requires WellTyped(s) && IsCode(s, o) && Closed(s, live) && o in live
    ensures Advances(s, st, MarkCode(s, st, o), live) && o in MarkCode(s, st, o).marked
    ensures Kids(s[o]) <= MarkCode(s, st, o).marked + AllTargets(s, MarkCode(s, st, o).queue)
    decreases Unmarked(s, st), 2
  {
    hide Advances, AllTargets;
    assert GoodBody(s, s[o]) && Kids(s[o]) == ConstRefs(s[o].consts);
    ConstsAdvance(s, st.(marked := st.marked + {o}), s[o].consts, live);
    MarkAdvances(s, st, o, MarkCode(s, st, o), live);
  }

  lemma {:induction false} ConstsAdvance(s: Store, st: St, cs: seq<Const>, live: set<nat>)
    requires WellTyped(s) && (forall c :: c in cs ==> GoodConst(s, c)) && Closed(s, live) && ConstRefs(cs) <= live
    ensures Advances(s, st, MarkConsts(s, st, cs), live)
    ensures ConstRefs(cs) <= MarkConsts(s, st, cs).marked + AllTargets(s, MarkConsts(s, st, cs).queue)
    decreases Unmarked(s, st), 1, cs
  {
    hide Advances, AllTargets;
    AdvancesZero(s, st, live);
    if cs != [] {
      assert cs == [cs[0]] + cs[1..];
      assert GoodConst(s, cs[0]);
      var st2 := MarkConsts(s, st, cs);
      match cs[0]
      case CodeConst(o) =>
        var st1 := Push(st, CodeTask(o));
        assert ConstRefs(cs) == ConstRefs(cs[1..]) + {o};
        PushAdvances(s, st, CodeTask(o), live);
        ConstsAdvance(s, st1, cs[1..], live);
        TargetsGrow(s, st1, st2, live);
        AdvancesTrans(s, st, st1, st2, live);
      case SpecConst(o) =>
        var st1 := MarkSpec(s, st, o);
        assert ConstRefs(cs) == ConstRefs(cs[1..]) + {o};
        SpecAdvances(s, st, o, live);
        ConstsAdvance(s, st1, cs[1..], live);
        AdvancesTrans(s, st, st1, st2, live);
      case PlainConst =>
        assert ConstRefs(cs) == ConstRefs(cs[1..]);
        ConstsAdvance(s, st, cs[1..], live);
    }
  }

  /** Any task: what it is for is marked or queued afterwards. */
  lemma {:induction false} TaskAdvances(s: Store, st: St, t: Task, live: set<nat>)
    requires WellTyped(s) && GoodTask(s, t) && Closed(s, live) && Targets(s, t) <= live
    ensures Advances(s, st, RunTask(s, st, t), live)
    ensures Targets(s, t) <= RunTask(s, st, t).marked + AllTargets(s, RunTask(s, st, t).queue)
  {
    hide Advances, AllTargets;
    match t
    case ValueTask(Imm) => AdvancesZero(s, st, live);
    case ValueTask(Ref(o)) => ValueAdvances(s, st, o, live);
    case ArrayTask(o) =>
      assert GoodBody(s, s[o]);
      PushValuesAdvances(s, st, s[o].values, live);
    case CodeTask(o) => CodeAdvances(s, st, o, live);
  }

  lemma {:induction false} ValueAdvances(s: Store, st: St, o: nat, live: set<nat>)
    requires WellTyped(s) && IsValue(s, Ref(o)) && Closed(s, live) && o in live
    ensures Advances(s, st, MarkValue(s, st, Ref(o)), live) && o in MarkValue(s, st, Ref(o)).marked
  {
    hide Advances, AllTargets;
    var st0 := st.(marked := st.marked + {o});
    var st1 := MarkValue(s, st, Ref(o));
    assert GoodBody(s, s[o]);
    match s[o]
    case Plain =>
      AdvancesZero(s, st0, live);
      MarkAdvances(s, st, o, st1, live);
    case Array(vs) =>
      PushValuesAdvances(s, st0, vs, live);
      PushValuesMarks(st0, vs);
      MarkAdvances(s, st, o, st1, live);
    case Struct(spec, fs) => StructAdvances(s, st, o, live);
    case Spec(_) => SpecAdvances(s, st, o, live);
    case Function(_, _) => FunctionAdvances(s, st, o, live);
  }

  lemma {:induction false} StructAdvances(s: Store, st: St, o: nat, live: set<nat>)
    requires WellTyped(s) && o in s && s[o].Struct? && Closed(s, live) && o in live
    ensures Advances(s, st, MarkValue(s, st, Ref(o)), live) && o in MarkValue(s, st, Ref(o)).marked
  {
    hide Advances, AllTargets;
    if o in st.marked {
      AdvancesZero(s, st, live);
    } else {
      var st0 := st.(marked := st.marked + {o});
      assert GoodBody(s, s[o]) && Kids(s[o]) == {s[o].spec} + Refs(s[o].fields);
      var st1 := MarkSpec(s, st0, s[o].spec);
      SpecAdvances(s, st0, s[o].spec, live);
      PushValuesAdvances(s, st1, s[o].fields, live);
      PushValuesMarks(st1, s[o].fields);
      AdvancesTrans(s, st0, st1, PushValues(st1, s[o].fields), live);
      MarkAdvances(s, st, o, MarkValue(s, st, Ref(o)), live);
    }
  }

  // ----- emptying the queue -----

  ghost function Step(s: Store, st: St): St
    requires WellTyped(s) && GoodQueue(s, st.queue)
  {
    if st.queue == [] then st else RunTask(s, st.(queue := st.queue[1..]), st.queue[0])
  }

  /** Between two tasks: everything marked or queued is live, and what marked objects and
      the roots refer to is marked, or queued, or `ahead`. */
  ghost predicate Progress(s: Store, st: St, roots: set<nat>, live: set<nat>, ahead: set<nat>) {
    && GoodQueue(s, st.queue) && st.marked <= live && AllTargets(s, st.queue) <= live && st.marked <= s.Keys
    && roots <= st.marked + AllTargets(s, st.queue) + ahead
    && forall o :: o in st.marked ==> Kids(s[o]) <= st.marked + AllTargets(s, st.queue) + ahead
  }

  /** A task deals with its targets. */
  lemma {:induction false} TaskProgress(s: Store, st: St, t: Task, roots: set<nat>, live: set<nat>, ahead: set<nat>)
    requires WellTyped(s) && Closed(s, live) && GoodTask(s, t) && Targets(s, t) <= live
    requires Progress(s, st, roots, live, Targets(s, t) + ahead)
    ensures Progress(s, RunTask(s, st, t), roots, live, ahead)
  {
    hide AllTargets, GoodQueue, RunTask;
    var st1 := RunTask(s, st, t);
    TaskAdvances(s, st, t, live);
    TargetsGrow(s, st, st1, live);
    var front: seq<Task> :| st1.queue == front + st.queue && GoodQueue(s, front) && AllTargets(s, front) <= live;
    TargetsAppend(s, front, st.queue);
    GoodAppend(s, front, st.queue);
  }

  lemma {:induction false} OneTarget(s: Store, t: Task)
    ensures AllTargets(s, [t]) == Targets(s, t)
  {
  }

  lemma {:induction false} StepProgress(s: Store, st: St, roots: set<nat>, live: set<nat>)
    requires WellTyped(s) && Closed(s, live) && Progress(s, st, roots, live, {})
    ensures Progress(s, Step(s, st), roots, live, {})
  {
    hide RunTask, AllTargets;
    if st.queue != [] {
      var t, st0 := st.queue[0], st.(queue := st.queue[1..]);
      assert st.queue == [t] + st0.queue;
      TargetsAppend(s, [t], st0.queue);
      OneTarget(s, t);
      TaskProgress(s, st0, t, roots, live, {});
    }
  }

  /** The marking functions of the roots, one after the other. */
  ghost function RunRoots(s: Store, st: St, roots: seq<Task>): St
    requires WellTyped(s) && forall t :: t in roots ==> GoodTask(s, t)
    decreases roots
  {
    if roots == [] then st else RunRoots(s, RunTask(s, st, roots[0]), roots[1..])
  }

  lemma {:induction false} RootsProgress(s: Store, st: St, tasks: seq<Task>, roots: set<nat>, live: set<nat>)
    requires WellTyped(s) && Closed(s, live) && (forall t :: t in tasks ==> GoodTask(s, t)) && AllTargets(s, tasks) <= live
    requires Progress(s, st, roots, live, AllTargets(s, tasks))
    ensures Progress(s, RunRoots(s, st, tasks), roots, live, {})
    decreases tasks
  {
    hide RunTask, AllTargets, Progress;
    if tasks == [] {
      NoTargets(s);
    } else {
      assert tasks == [tasks[0]] + tasks[1..];
      assert tasks[0] in tasks;
      TargetsAppend(s, [tasks[0]], tasks[1..]);
      OneTarget(s, tasks[0]);
      TaskProgress(s, st, tasks[0], roots, live, AllTargets(s, tasks[1..]));
      RootsProgress(s, RunTask(s, st, tasks[0]), tasks[1..], roots, live);
    }
  }

  lemma {:induction false} NoTargets(s: Store)
    ensures AllTargets(s, []) == {}
  {
  }

  /** With nothing queued any more, exactly the reachable objects are marked. */
  lemma {:induction false} DrainedIsExact(s: Store, st: St, roots: set<nat>)
    requires WellTyped(s) && roots <= s.Keys && Progress(s, st, roots, Reach(s, roots), {}) && st.queue == []
    ensures st.marked == Reach(s, roots)
  {
    hide Reach;
    assert AllTargets(s, st.queue) == {};
    ReachIsLeast(s, roots, st.marked);
  }
}
