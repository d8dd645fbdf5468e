/** The main results about whole programs. */
module Meaning {
  import opened Syntax
  import opened Values
  import opened Assembly
  import opened Codegen
  import opened Machine
  import opened Semantics
  import opened Labels
  import opened Layout
  import opened Activation
  import opened Outcomes
  import Simulation

  /** What direct evaluation of a module says, within some fuel. */
  function EvalModule(p: Program, fuel: nat, globals: map<Name, Value>): StmtResult {
    EvalBlock(p, 1, fuel, p.body, Global, Store([], globals, 0))
  }

  /** The final machine state that a result stands for; none when fuel ran out. */
  function FinalState(r: StmtResult): Option<State> {
    match r
    case Done(st) => Some(Halted(st.globals, st.allocs))
    case Threw(err, st) => Some(Uncaught(err, st.globals, st.allocs))
    case Ended => Some(Stopped)
    case OutOfFuel => None
    case Broke(_) => None
    case Continued(_) => None
    case Returned(_, _) => None
  }

  function ModuleCtx(p: Program, img: Image): Ctx {
    Ctx(img, GenModule(p.body), BlockConsts(p.body), None, 0, [], [])
  }

  lemma ModuleCtxValid(p: Program, img: Image)
    requires Compiled(p, img)
    ensures ModuleCtx(p, img).Valid()
  {
    hide GenModule, MarkedOnce, EmitUpTo;
    ModuleMarkedOnce(p.body);
  }

  /** The module body, between the first instruction and the final halt. */
  lemma ModuleBody(p: Program, img: Image, fuel: nat, globals: map<Name, Value>)
    returns (n: nat, junk: seq<Value>, j: nat)
    requires Good(p) && Compiled(p, img)
    ensures j + 1 == |GenModule(p.body)| && GenModule(p.body)[j] == Op(Halt, 0)
    ensures StmtPost(ModuleCtx(p, img), EvalModule(p, fuel, globals), 0, None, Start(globals), [], [], j, fuel, n, junk)
  {
    hide Pos, Unwind, Run, GenBlock, EvalBlock, MarkedOnce, BlockConsts, Good, Compiled;
    var c := ModuleCtx(p, img);
    var st := Store([], globals, 0);
    var g := GenBlock(p.body, Global, None, 0, 0);
    ModuleCtxValid(p, img);
    assert Part(c.items, 0, g + [Op(Halt, 0)]);
    Split(c.items, 0, g, [Op(Halt, 0)]);
    j := |g|;
    Item0(c.items, j, [Op(Halt, 0)], 0);
    assert Pool(c.consts, 0, BlockConsts(p.body));
    assert PeakBlock(p.body, Global) == 0 by { GlobalPeak(p.body); }
    assert BlockWellPlaced(p.body, false, false) && BlockLinked(p.body, p.funs) by { GoodBody(p); }
    n, junk := Simulation.BlockCorrect(p, c, fuel, p.body, Global, None, st, [], [], 0, 0, 0);
    assert c.At(st, [], [], 0) == Start(globals) by {
      PosZero(c.items);
      assert [] + st.locals + [] == [];
      assert c.below + [c.FrameAt(0, [])] == [Frame(None, 0, 0, 0, [])];
    }
  }

  lemma GoodBody(p: Program)
    requires Good(p)
    ensures BlockWellPlaced(p.body, false, false) && BlockLinked(p.body, p.funs)
  {
  }

  lemma PosZero(items: seq<Item>)
    ensures Pos(items, 0) == 0
  {
  }

  /** Module code uses no local slots. */
  lemma {:induction false} GlobalPeak(ss: List<Stmt>)
    ensures PeakBlock(ss, Global) == 0 && AfterBlock(ss, Global) == Global
    decreases ss, 0
  {
    match ss
    case Nil =>
    case Cons(s, rest) =>
      GlobalStmtPeak(s);
      GlobalPeak(rest);
  }

  lemma {:induction false} GlobalStmtPeak(s: Stmt)
    ensures Peak(s, Global) == 0 && After(s, Global) == Global
    decreases s, 0
  {
    match s
    case Let(ds) => GlobalDecls(ds);
    case If(_, thn, els) =>
      GlobalPeak(thn);
      GlobalElsePeak(els);
    case While(_, body) => GlobalPeak(body);
    case For(init, _, _, body) =>
      if init.Some? {
        GlobalStmtPeak(init.value);
      }
      GlobalPeak(body);
    case Try(body, name, handler) =>
      GlobalPeak(body);
      GlobalPeak(handler);
    case _ =>
  }

  lemma {:induction false} GlobalElsePeak(els: Else)
    ensures PeakElse(els, Global) == 0 && AfterElse(els, Global) == Global
    decreases els, 0
  {
    match els
    case NoElse =>
    case ElseIf(s) => GlobalStmtPeak(s);
    case ElseBlock(body) => GlobalPeak(body);
  }

  lemma {:induction false} GlobalDecls(ds: List<Decl>)
    ensures AfterDecls(ds, Global) == Global
  {
    match ds
    case Nil =>
    case Cons(_, rest) => GlobalDecls(rest);
  }

  /** One direction: whatever evaluation concludes, the machine reaches; and while
      evaluation has not concluded, the machine has not stopped either. */
  lemma MachineFollows(p: Program, img: Image, fuel: nat, globals: map<Name, Value>) returns (n: nat)
    requires Good(p) && Compiled(p, img)
    ensures var o := FinalState(EvalModule(p, fuel, globals));
            if o.Some? then Run(img, Start(globals), n) == o.value
            else n >= fuel && Run(img, Start(globals), n).Running?
  {
    hide Pos, Run, GenModule, EvalModule, MarkedOnce, Good, Compiled, Ctx.ConfigAt, Ctx.RaiseAt, Unwind, Addr;
    var junk, j;
    n, junk, j := ModuleBody(p, img, fuel, globals);
    var c := ModuleCtx(p, img);
    var r := EvalModule(p, fuel, globals);
    if r.Done? {
      StepHalt(p, img, r.st, [] + junk, j);
      RunAdd(img, Start(globals), n, 1);
      n := n + 1;
    } else if r.Threw? {
      UncaughtHere(p, img, r.st, [] + junk, r.err);
    }
  }

  lemma UncaughtHere(p: Program, img: Image, st: Store, ops: seq<Value>, err: Value)
    ensures ModuleCtx(p, img).RaiseAt(st, ops, [], err) == Uncaught(err, st.globals, st.allocs)
  {
    hide GenModule, BlockConsts;
  }

  lemma StepHalt(p: Program, img: Image, st: Store, ops: seq<Value>, j: nat)
    requires Compiled(p, img) && j < |GenModule(p.body)| && GenModule(p.body)[j] == Op(Halt, 0)
    ensures Run(img, ModuleCtx(p, img).At(st, ops, [], j), 1) == Halted(st.globals, st.allocs)
  {
    hide Pos, GenModule, CallStep, TopStep, RetStep;
    ModuleCtxValid(p, img);
    StepAt(ModuleCtx(p, img), st, ops, [], j);
  }

  /** Two final states of the same run are the same state. */
  lemma FinalIsUnique(img: Image, s: State, m: nat, n: nat)
    requires !Run(img, s, m).Running? && !Run(img, s, n).Running?
    ensures Run(img, s, m) == Run(img, s, n)
  {
    hide Run;
    if m <= n {
      RunAdd(img, s, m, n - m);
      FinalStays(img, Run(img, s, m), n - m);
    } else {
      RunAdd(img, s, n, m - n);
      FinalStays(img, Run(img, s, n), m - n);
    }
  }

  ghost predicate Reaches(img: Image, s: State, o: State) {
    exists n: nat :: Run(img, s, n) == o
  }

  ghost predicate Concludes(p: Program, globals: map<Name, Value>, o: State) {
    exists fuel: nat :: FinalState(EvalModule(p, fuel, globals)) == Some(o)
  }

  /** Meaning preservation, in both directions: the compiled module ends in a final state
      exactly when direct evaluation concludes with it. */
  lemma MeaningPreserved(p: Program, img: Image, globals: map<Name, Value>, o: State)
    requires Good(p) && Compiled(p, img) && !o.Running?
    ensures Reaches(img, Start(globals), o) <==> Concludes(p, globals, o)
  {
    hide Run, EvalModule, FinalState;
    var s := Start(globals);
    if Concludes(p, globals, o) {
      var fuel: nat :| FinalState(EvalModule(p, fuel, globals)) == Some(o);
      var n := MachineFollows(p, img, fuel, globals);
      assert Run(img, s, n) == o;
    }
    if Reaches(img, s, o) {
      var m: nat :| Run(img, s, m) == o;
      var n := MachineFollows(p, img, m + 1, globals);
      var r := FinalState(EvalModule(p, m + 1, globals));
      if r.Some? {
        ConclusionIsFinal(p, m + 1, globals);
        FinalIsUnique(img, s, m, n);
      } else {
        StillRunning(img, s, m, n);
        assert false;
      }
    }
  }

  lemma ConclusionIsFinal(p: Program, fuel: nat, globals: map<Name, Value>)
    ensures var r := FinalState(EvalModule(p, fuel, globals)); r.Some? ==> !r.value.Running? && r.value != Stuck
  {
    hide EvalModule;
  }

  /** No run of compiled code ever pops an empty stack, jumps out of its code, or reads a
      missing local, constant or try block. */
  lemma NeverStuck(p: Program, img: Image, globals: map<Name, Value>, n: nat)
    requires Good(p) && Compiled(p, img)
    ensures Run(img, Start(globals), n) != Stuck
  {
    hide Run, EvalModule, FinalState;
    if Run(img, Start(globals), n) == Stuck {
      MeaningPreserved(p, img, globals, Stuck);
      assert Reaches(img, Start(globals), Stuck);
      var fuel: nat :| FinalState(EvalModule(p, fuel, globals)) == Some(Stuck);
      ConclusionIsFinal(p, fuel, globals);
    }
  }
}
