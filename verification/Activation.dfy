/** One activation of compiled code: the states it passes through, described by the
    store, the operands and the try stack, and what each instruction does to them. */
module Activation {
  import opened Syntax
  import opened Values
  import opened Assembly
  import opened Codegen
  import opened Machine
  import opened Semantics
  import opened Layout
  import opened Labels

  // ----- compiled programs -----

  function FunCode(d: FunDecl): Code {
    Code(Assemble(GenFun(d)), BlockConsts(d.body), d.name, |d.params|)
  }

  function ModuleCode(p: Program): Code {
    Code(Assemble(GenModule(p.body)), BlockConsts(p.body), 0, 0)
  }

  /** The image that the compiler produces for a program. */
  ghost predicate Compiled(p: Program, img: Image) {
    && img.main == ModuleCode(p)
    && |img.funs| == |p.funs|
    && (forall i :: 0 <= i < |p.funs| ==> img.funs[i] == FunCode(p.funs[i]))
    && img.strings == p.strings
  }

  // ----- activations -----

  /** `base` is the stack up to the first local: the callers' values and the function
      value itself.  `below` are the frames of the callers. */
  datatype Ctx = Ctx(img: Image, items: seq<Item>, consts: seq<Constant>, fn: Option<nat>,
                     nargs: nat, base: seq<Value>, below: seq<Frame>)
  {
    ghost predicate Valid() {
      && MarkedOnce(items)
      && (match fn
          case None => |base| == 0 && |below| == 0
          case Some(_) => |base| > 0 && |below| > 0)
      && CodeOf(img, FrameAt(0, [])).Some?
      && CodeOf(img, FrameAt(0, [])).value.instrs == Assemble(items)
      && CodeOf(img, FrameAt(0, [])).value.consts == consts
    }

    function Bp(): nat { if |base| > 0 then |base| - 1 else 0 }

    function FrameAt(ip: nat, tries: seq<nat>): Frame { Frame(fn, ip, Bp(), nargs, tries) }

    function Depth(): nat { |below| + 1 }

    function ConfigAt(st: Store, ops: seq<Value>, tries: seq<nat>, pc: nat): Config {
      Config(base + st.locals + ops, st.globals, st.allocs, below + [FrameAt(pc, tries)], None)
    }

    /** Running at address `pc` with these operands above the locals. */
    function AtPc(st: Store, ops: seq<Value>, tries: seq<nat>, pc: nat): State {
      Running(ConfigAt(st, ops, tries, pc))
    }

    /** Running at the `i`th item. */
    function At(st: Store, ops: seq<Value>, tries: seq<nat>, i: nat): State
      requires i <= |items|
    {
      AtPc(st, ops, tries, Pos(items, i))
    }

    /** The state after an error is raised here. */
    function RaiseAt(st: Store, ops: seq<Value>, tries: seq<nat>, err: Value): State {
      Unwind(base + st.locals + ops, st.globals, st.allocs, below + [FrameAt(0, tries)], err)
    }

    /** The state after returning from here. */
    function ReturnAt(st: Store, v: Value): State {
      Running(Config(base[..Bp()] + [v], st.globals, st.allocs, below, None))
    }
  }

  /** The scope and the store fit the activation: only functions have local variables. */
  ghost predicate Fits(c: Ctx, sc: Scope, st: Store) {
    && sc.Local? == c.fn.Some?
    && sc.Size() <= |st.locals|
    && (c.fn.None? ==> st.locals == [])
  }

  lemma UnwindIgnoresIp(stack: seq<Value>, g: map<Name, Value>, allocs: nat, below: seq<Frame>, f: Frame, ip: nat, err: Value)
    ensures Unwind(stack, g, allocs, below + [f.(ip := ip)], err) == Unwind(stack, g, allocs, below + [f], err)
  {
    var fs, ft := below + [f.(ip := ip)], below + [f];
    assert fs[..|fs| - 1] == below == ft[..|ft| - 1];
  }

  // ----- single steps -----

  /** The instruction at an item. */
  function InstrAt(c: Ctx, i: nat): Instr
    requires i < |c.items| && !c.items[i].Mark?
  {
    ResolveItem(c.items[i], c.items)
  }

  /** One step from an item is the execution of its instruction. */
  lemma StepAt(c: Ctx, st: Store, ops: seq<Value>, tries: seq<nat>, i: nat)
    requires c.Valid() && i < |c.items| && !c.items[i].Mark? && InstrAt(c, i).Instr?
    ensures Run(c.img, c.At(st, ops, tries, i), 1)
         == Execute(c.img, c.ConfigAt(st, ops, tries, Pos(c.items, i)), CodeOf(c.img, c.FrameAt(0, [])).value,
                    InstrAt(c, i).op, InstrAt(c, i).arg)
    ensures Pos(c.items, i + 1) == Pos(c.items, i) + 1
  {
    hide Execute, Pos, EmitUpTo;
    Fetch(c.items, i);
    var s := c.At(st, ops, tries, i);
    assert s.c.frames[|s.c.frames| - 1] == c.FrameAt(Pos(c.items, i), tries);
    assert Run(c.img, s, 0) == s;
  }

  /** Continuing with other operands, or another store, at another address. */
  lemma Proceed(c: Ctx, cfg: Config, st: Store, ops: seq<Value>, tries: seq<nat>, pc: nat, stack: seq<Value>)
    requires |cfg.frames| == |c.below| + 1 && cfg.frames[..|c.below|] == c.below
    requires exists ip :: cfg.frames[|c.below|] == c.FrameAt(ip, tries)
    requires cfg.globals == st.globals && cfg.allocs == st.allocs && cfg.error == None
    requires stack == c.base + st.locals + ops
    ensures Goto(cfg, stack, pc) == c.AtPc(st, ops, tries, pc)
  {
  }

  lemma Top(c: Ctx, st: Store, ops: seq<Value>, v: Value, tries: seq<nat>, pc: nat)
    ensures var s := c.ConfigAt(st, ops + [v], tries, pc).stack;
            && |s| > 0
            && s[|s| - 1] == v
            && s[..|s| - 1] == c.base + st.locals + ops
            && s == c.base + st.locals + ops + [v]
  {
    assert c.base + st.locals + (ops + [v]) == c.base + st.locals + ops + [v];
  }

  lemma FrameShape(c: Ctx, st: Store, ops: seq<Value>, tries: seq<nat>, pc: nat)
    ensures var cfg := c.ConfigAt(st, ops, tries, pc);
            && |cfg.frames| == |c.below| + 1
            && cfg.frames[..|c.below|] == c.below
            && cfg.frames[|c.below|] == c.FrameAt(pc, tries)
  {
  }

  /** A constant or a value loaded: what a pushing instruction leads to. */
  lemma Pushed(c: Ctx, st: Store, st1: Store, ops: seq<Value>, v: Value, tries: seq<nat>, pc: nat)
    requires st1.locals == st.locals
    ensures Next(c.ConfigAt(st, ops, tries, pc).(globals := st1.globals, allocs := st1.allocs),
                 c.ConfigAt(st, ops, tries, pc).stack + [v])
         == c.AtPc(st1, ops + [v], tries, pc + 1)
  {
    FrameShape(c, st, ops, tries, pc);
    var cfg := c.ConfigAt(st, ops, tries, pc).(globals := st1.globals, allocs := st1.allocs);
    assert cfg.frames[|c.below|] == c.FrameAt(pc, tries);
    assert cfg.stack + [v] == c.base + st1.locals + (ops + [v]);
    Proceed(c, cfg, st1, ops + [v], tries, pc + 1, cfg.stack + [v]);
  }

  /** Raising from a configuration of this activation. */
  lemma RaisedHere(c: Ctx, st: Store, ops: seq<Value>, tries: seq<nat>, pc: nat, cfg: Config, err: Value)
    requires cfg == c.ConfigAt(st, ops, tries, pc)
    ensures Raised(cfg, err) == c.RaiseAt(st, ops, tries, err)
  {
    UnwindIgnoresIp(cfg.stack, cfg.globals, cfg.allocs, c.below, c.FrameAt(pc, tries), 0, err);
  }

  /** The outcome of an operator whose operands have been popped. */
  function OpOutcome(c: Ctx, r: OpResult, st: Store, ops: seq<Value>, tries: seq<nat>, i: nat): State
    requires i <= |c.items|
  {
    match r
    case Yield(v) => c.At(st, ops + [v], tries, i)
    case Raise(err) => c.RaiseAt(st, ops, tries, err)
    case Abort => Stopped
  }

  lemma Finished(c: Ctx, st: Store, ops: seq<Value>, more: seq<Value>, tries: seq<nat>, pc: nat, r: OpResult)
    ensures Finish(c.ConfigAt(st, ops + more, tries, pc), c.base + st.locals + ops, r)
         == match r
            case Yield(v) => c.AtPc(st, ops + [v], tries, pc + 1)
            case Raise(err) => c.RaiseAt(st, ops, tries, err)
            case Abort => Stopped
  {
    var cfg := c.ConfigAt(st, ops + more, tries, pc);
    FrameShape(c, st, ops + more, tries, pc);
    match r
    case Yield(v) =>
      assert c.base + st.locals + ops + [v] == c.base + st.locals + (ops + [v]);
      assert cfg.frames[|c.below|] == c.FrameAt(pc, tries);
      Proceed(c, cfg, st, ops + [v], tries, pc + 1, c.base + st.locals + ops + [v]);
    case Raise(err) =>
      assert cfg.(stack := c.base + st.locals + ops) == c.ConfigAt(st, ops, tries, pc);
      RaisedHere(c, st, ops, tries, pc, c.ConfigAt(st, ops, tries, pc), err);
    case Abort =>
  }

  /** Going on at `pc` after popping or keeping operands. */
  lemma Moved(c: Ctx, st: Store, ops: seq<Value>, ops1: seq<Value>, tries: seq<nat>, pc: nat, pc1: nat)
    ensures Goto(c.ConfigAt(st, ops, tries, pc), c.base + st.locals + ops1, pc1) == c.AtPc(st, ops1, tries, pc1)
  {
    FrameShape(c, st, ops, tries, pc);
    var cfg := c.ConfigAt(st, ops, tries, pc);
    assert cfg.frames[|c.below|] == c.FrameAt(pc, tries);
    Proceed(c, cfg, st, ops1, tries, pc1, c.base + st.locals + ops1);
  }

  /** One step at an instruction that uses the top of the stack. */
  lemma TopStepAt(c: Ctx, st: Store, ops: seq<Value>, v: Value, tries: seq<nat>, i: nat)
    requires c.Valid() && i < |c.items| && !c.items[i].Mark? && InstrAt(c, i).Instr? && UsesTop(InstrAt(c, i).op)
    ensures var cfg := c.ConfigAt(st, ops + [v], tries, Pos(c.items, i));
            && cfg.frames != [] && cfg.stack == c.base + st.locals + ops + [v]
            && Run(c.img, c.At(st, ops + [v], tries, i), 1)
               == TopStep(cfg, InstrAt(c, i).op, InstrAt(c, i).arg, c.base + st.locals + ops, v)
    ensures Pos(c.items, i + 1) == Pos(c.items, i) + 1
  {
    hide TopStep, CallStep, RetStep, PushStep, Pos, Run, Ctx.Valid, Addr;
    StepAt(c, st, ops + [v], tries, i);
    Top(c, st, ops, v, tries, Pos(c.items, i));
    FrameShape(c, st, ops + [v], tries, Pos(c.items, i));
  }

  /** One step at an instruction that needs nothing on the stack. */
  lemma PushStepAt(c: Ctx, st: Store, ops: seq<Value>, tries: seq<nat>, i: nat)
    requires c.Valid() && i < |c.items| && !c.items[i].Mark? && InstrAt(c, i).Instr?
    requires !UsesTop(InstrAt(c, i).op) && InstrAt(c, i).op != CallFn && InstrAt(c, i).op != Ret
    ensures var cfg := c.ConfigAt(st, ops, tries, Pos(c.items, i));
            var code := CodeOf(c.img, c.FrameAt(0, []));
            && cfg.frames != [] && code.Some? && code.value.consts == c.consts
            && Run(c.img, c.At(st, ops, tries, i), 1) == PushStep(c.img, cfg, code.value, InstrAt(c, i).op, InstrAt(c, i).arg)
    ensures Pos(c.items, i + 1) == Pos(c.items, i) + 1
  {
    hide TopStep, CallStep, RetStep, PushStep, Pos, Run, Addr, MarkedOnce, EmitUpTo;
    StepAt(c, st, ops, tries, i);
    FrameShape(c, st, ops, tries, Pos(c.items, i));
  }

  // ----- the instructions of the fragment -----

  lemma StepUn(c: Ctx, st: Store, ops: seq<Value>, v: Value, tries: seq<nat>, i: nat)
    requires c.Valid() && i < |c.items| && c.items[i].Op? && c.items[i].op in {Un(Neg), Un(Not), Un(BitNot), Inc, Dec}
    ensures Run(c.img, c.At(st, ops + [v], tries, i), 1)
         == OpOutcome(c, (match c.items[i].op
                          case Un(u) => ApplyUnary(u, v)
                          case Inc => ApplyBump(true, v)
                          case _ => ApplyBump(false, v)), st, ops, tries, i + 1)
  {
    hide Run, Execute, Ctx.Valid, Finish, Raised, Ctx.RaiseAt, CallStep, RetStep, PushStep, Pos, ApplyUnary, ApplyBump, Unwind, Goto;
    TopStepAt(c, st, ops, v, tries, i);
    match c.items[i].op
    case Un(u) => Finished(c, st, ops, [v], tries, Pos(c.items, i), ApplyUnary(u, v));
    case Inc => Finished(c, st, ops, [v], tries, Pos(c.items, i), ApplyBump(true, v));
    case Dec => Finished(c, st, ops, [v], tries, Pos(c.items, i), ApplyBump(false, v));
  }

  lemma StepBin(c: Ctx, st: Store, ops: seq<Value>, a: Value, b: Value, tries: seq<nat>, i: nat)
    requires c.Valid() && i < |c.items| && c.items[i].Op? && c.items[i].op.Bin?
    ensures Run(c.img, c.At(st, ops + [a, b], tries, i), 1)
         == OpOutcome(c, ApplyBinary(c.items[i].op.bop, a, b), st, ops, tries, i + 1)
  {
    hide Run, Execute, Ctx.Valid, Finish, Raised, Ctx.RaiseAt, CallStep, RetStep, PushStep, Pos, ApplyBinary, Unwind, Goto;
    var pc := Pos(c.items, i);
    assert ops + [a, b] == ops + [a] + [b];
    TopStepAt(c, st, ops + [a], b, tries, i);
    Top(c, st, ops, a, tries, pc);
    Finished(c, st, ops, [a, b], tries, pc, ApplyBinary(c.items[i].op.bop, a, b));
  }

  lemma StepPop(c: Ctx, st: Store, ops: seq<Value>, v: Value, tries: seq<nat>, i: nat)
    requires c.Valid() && i < |c.items| && c.items[i].Op? && c.items[i].op == Pop
    ensures Run(c.img, c.At(st, ops + [v], tries, i), 1) == c.At(st, ops, tries, i + 1)
  {
    hide Run, Execute, Ctx.Valid, CallStep, RetStep, PushStep, Pos, Goto;
    TopStepAt(c, st, ops, v, tries, i);
    Moved(c, st, ops + [v], ops, tries, Pos(c.items, i), Pos(c.items, i) + 1);
  }

  lemma StepDup(c: Ctx, st: Store, ops: seq<Value>, v: Value, tries: seq<nat>, i: nat)
    requires c.Valid() && i < |c.items| && c.items[i].Op? && c.items[i].op == Dup
    ensures Run(c.img, c.At(st, ops + [v], tries, i), 1) == c.At(st, ops + [v, v], tries, i + 1)
  {
    hide Run, Execute, Ctx.Valid, CallStep, RetStep, PushStep, Pos, Goto;
    TopStepAt(c, st, ops, v, tries, i);
    assert c.base + st.locals + (ops + [v]) + [v] == c.base + st.locals + (ops + [v, v]);
    Moved(c, st, ops + [v], ops + [v, v], tries, Pos(c.items, i), Pos(c.items, i) + 1);
  }

  /** Conditional jumps pop their condition. */
  lemma StepBranch(c: Ctx, st: Store, ops: seq<Value>, v: Value, tries: seq<nat>, i: nat)
    requires c.Valid() && i < |c.items| && c.items[i].Ref? && c.items[i].op in {JumpIfTrue, JumpIfFalse}
    ensures Run(c.img, c.At(st, ops + [v], tries, i), 1)
         == if Truthy(v) == (c.items[i].op == JumpIfTrue) then c.AtPc(st, ops, tries, Addr(c.items, c.items[i].lab))
            else c.At(st, ops, tries, i + 1)
  {
    hide Run, Execute, Ctx.Valid, CallStep, RetStep, PushStep, Pos, Addr, Goto, Truthy;
    TopStepAt(c, st, ops, v, tries, i);
    Moved(c, st, ops + [v], ops, tries, Pos(c.items, i), Pos(c.items, i) + 1);
    Moved(c, st, ops + [v], ops, tries, Pos(c.items, i), Addr(c.items, c.items[i].lab));
  }

  lemma StepJump(c: Ctx, st: Store, ops: seq<Value>, tries: seq<nat>, i: nat)
    requires c.Valid() && i < |c.items| && c.items[i].Ref? && c.items[i].op == Jump
    ensures Run(c.img, c.At(st, ops, tries, i), 1) == c.AtPc(st, ops, tries, Addr(c.items, c.items[i].lab))
  {
    hide Run, Execute, Ctx.Valid, CallStep, RetStep, TopStep, Pos, Addr, Goto;
    PushStepAt(c, st, ops, tries, i);
    Moved(c, st, ops, ops, tries, Pos(c.items, i), Addr(c.items, c.items[i].lab));
  }

  /** A label is reached by falling through to it or by jumping to it. */
  lemma AtLabel(c: Ctx, st: Store, ops: seq<Value>, tries: seq<nat>, i: nat)
    requires c.Valid() && i < |c.items| && c.items[i].Mark?
    ensures c.At(st, ops, tries, i) == c.At(st, ops, tries, i + 1) == c.AtPc(st, ops, tries, Addr(c.items, c.items[i].lab))
  {
    AddrOfMark(c.items, i);
  }

  /** Instructions that push a known value and change nothing else. */
  lemma StepPush(c: Ctx, st: Store, ops: seq<Value>, tries: seq<nat>, i: nat, p: Program, lit: Literal, k: nat)
    requires c.Valid() && i < |c.items| && c.items[i] == GenLiteral(lit, k)
    requires lit.IntLit? ==> k < |c.consts| && c.consts[k] == IntConst(lit.n)
    requires c.img.strings == p.strings
    ensures Run(c.img, c.At(st, ops, tries, i), 1) == c.At(st, ops + [LiteralValue(p, lit)], tries, i + 1)
  {
    hide Run, Execute, Ctx.Valid, Ctx.RaiseAt, Raised, CallStep, RetStep, TopStep, PushStep, Pos, Goto, Next;
    PushStepAt(c, st, ops, tries, i);
    Pushed(c, st, st, ops, LiteralValue(p, lit), tries, Pos(c.items, i));
    LiteralPushes(c.img, c.ConfigAt(st, ops, tries, Pos(c.items, i)), CodeOf(c.img, c.FrameAt(0, [])).value, p, lit, k);
  }

  lemma LiteralPushes(img: Image, cfg: Config, code: Code, p: Program, lit: Literal, k: nat)
    requires cfg.frames != [] && (lit.IntLit? ==> k < |code.consts| && code.consts[k] == IntConst(lit.n)) && img.strings == p.strings
    ensures PushStep(img, cfg, code, GenLiteral(lit, k).op, GenLiteral(lit, k).arg) == Next(cfg, cfg.stack + [LiteralValue(p, lit)])
  {
    hide Next, Goto;
  }

  lemma StepFunConst(c: Ctx, st: Store, ops: seq<Value>, tries: seq<nat>, i: nat, fn: nat)
    requires c.Valid() && i < |c.items| && c.items[i].Op? && c.items[i].op == LoadConst
    requires c.items[i].arg < |c.consts| && c.consts[c.items[i].arg] == FunConst(fn)
    ensures Run(c.img, c.At(st, ops, tries, i), 1)
         == c.At(st.(allocs := st.allocs + 1), ops + [FunV(fn, st.allocs)], tries, i + 1)
  {
    hide Run, Execute, Ctx.Valid, CallStep, RetStep, TopStep, Pos, Goto, Next;
    PushStepAt(c, st, ops, tries, i);
    Pushed(c, st, st.(allocs := st.allocs + 1), ops, FunV(fn, st.allocs), tries, Pos(c.items, i));
  }

  lemma StepLoad(c: Ctx, st: Store, ops: seq<Value>, tries: seq<nat>, i: nat, p: Program, x: Name, sc: Scope)
    requires c.Valid() && i < |c.items| && c.items[i] == Load(x, sc)
    requires Fits(c, sc, st) && c.img.strings == p.strings
    ensures Run(c.img, c.At(st, ops, tries, i), 1)
         == match ReadVar(p, x, sc, st)
            case Val(v, _) => c.At(st, ops + [v], tries, i + 1)
            case Err(err, _) => c.RaiseAt(st, ops, tries, err)
            case _ => Stuck
  {
    hide Run, Raised, Ctx.RaiseAt, Unbound, PushStep, Pos, Next;
    PushStepAt(c, st, ops, tries, i);
    var pc := Pos(c.items, i);
    match sc.Resolve(x)
    case Some(slot) =>
      LoadsLocal(c, st, ops, tries, pc, sc, slot);
      Pushed(c, st, st, ops, st.locals[slot], tries, pc);
    case None => LoadsGlobal(c, st, ops, tries, pc, p, x);
  }

  lemma LoadsLocal(c: Ctx, st: Store, ops: seq<Value>, tries: seq<nat>, pc: nat, sc: Scope, slot: nat)
    requires c.Valid() && Fits(c, sc, st) && slot < |st.locals| && CodeOf(c.img, c.FrameAt(0, [])).Some? && sc.Local?
    ensures var cfg := c.ConfigAt(st, ops, tries, pc);
            cfg.frames != []
            && PushStep(c.img, cfg, CodeOf(c.img, c.FrameAt(0, [])).value, LoadLocal, slot) == Next(cfg, cfg.stack + [st.locals[slot]])
  {
    hide Raised, Unbound, Goto;
    var s := c.ConfigAt(st, ops, tries, pc).stack;
    FrameShape(c, st, ops, tries, pc);
    assert s[|c.base| + slot] == st.locals[slot];
  }

  lemma LoadsGlobal(c: Ctx, st: Store, ops: seq<Value>, tries: seq<nat>, pc: nat, p: Program, x: Name)
    requires c.img.strings == p.strings && CodeOf(c.img, c.FrameAt(0, [])).Some?
    ensures var cfg := c.ConfigAt(st, ops, tries, pc);
            cfg.frames != []
            && PushStep(c.img, cfg, CodeOf(c.img, c.FrameAt(0, [])).value, LoadGlobal, x)
               == if x in st.globals then c.AtPc(st, ops + [st.globals[x]], tries, pc + 1) else c.RaiseAt(st, ops, tries, Unbound(p.Text(x)))
  {
    hide Raised, Ctx.RaiseAt, Unbound, Goto, Next;
    FrameShape(c, st, ops, tries, pc);
    if x in st.globals {
      Pushed(c, st, st, ops, st.globals[x], tries, pc);
    } else {
      RaisedHere(c, st, ops, tries, pc, c.ConfigAt(st, ops, tries, pc), Unbound(p.Text(x)));
    }
  }

  /** The stack after a local is overwritten. */
  lemma StoredLocal(c: Ctx, st: Store, ops: seq<Value>, slot: nat, v: Value)
    requires slot < |st.locals|
    ensures (c.base + st.locals + ops)[|c.base| + slot := v] == c.base + st.locals[slot := v] + ops
  {
  }

  lemma StepStoreSlot(c: Ctx, st: Store, ops: seq<Value>, v: Value, tries: seq<nat>, i: nat)
    requires c.Valid() && c.fn.Some? && i < |c.items| && c.items[i].Op? && c.items[i].op == StoreLocal
    requires c.items[i].arg < |st.locals|
    ensures Run(c.img, c.At(st, ops + [v], tries, i), 1)
         == c.At(WriteLocal(st, c.items[i].arg, v), ops + [v], tries, i + 1)
  {
    hide Run, Execute, CallStep, RetStep, PushStep, Pos, Goto;
    var pc := Pos(c.items, i);
    TopStepAt(c, st, ops, v, tries, i);
    FrameShape(c, st, ops + [v], tries, pc);
    StoredLocal(c, st, ops + [v], c.items[i].arg, v);
    var st1 := WriteLocal(st, c.items[i].arg, v);
    Proceed(c, c.ConfigAt(st, ops + [v], tries, pc), st1, ops + [v], tries, pc + 1, c.base + st1.locals + (ops + [v]));
  }

  lemma StepStore(c: Ctx, st: Store, ops: seq<Value>, v: Value, tries: seq<nat>, i: nat, x: Name, sc: Scope)
    requires c.Valid() && i < |c.items| && c.items[i] == Codegen.Store(x, sc) && Fits(c, sc, st)
    ensures Run(c.img, c.At(st, ops + [v], tries, i), 1) == c.At(WriteVar(x, sc, st, v), ops + [v], tries, i + 1)
  {
    hide Pos, Goto, LastIndex;
    match sc.Resolve(x)
    case Some(slot) => StepStoreSlot(c, st, ops, v, tries, i);
    case None => StepStoreGlobal(c, st, ops, v, tries, i);
  }

  lemma StepStoreGlobal(c: Ctx, st: Store, ops: seq<Value>, v: Value, tries: seq<nat>, i: nat)
    requires c.Valid() && i < |c.items| && c.items[i].Op? && c.items[i].op == StoreGlobal
    ensures var x := c.items[i].arg;
            var st1 := if x in st.globals then st.(globals := st.globals[x := v]) else st;
            Run(c.img, c.At(st, ops + [v], tries, i), 1) == c.At(st1, ops + [v], tries, i + 1)
  {
    hide Run, Execute, Ctx.Valid, CallStep, RetStep, PushStep, Pos, Goto;
    var pc, x := Pos(c.items, i), c.items[i].arg;
    var cfg := c.ConfigAt(st, ops + [v], tries, pc);
    TopStepAt(c, st, ops, v, tries, i);
    FrameShape(c, st, ops + [v], tries, pc);
    var st1 := if x in st.globals then st.(globals := st.globals[x := v]) else st;
    var cfg1 := if x in st.globals then cfg.(globals := st.globals[x := v]) else cfg;
    assert cfg1.frames[|c.below|] == c.FrameAt(pc, tries);
    Proceed(c, cfg1, st1, ops + [v], tries, pc + 1, cfg.stack);
  }

  lemma StepDeclareGlobal(c: Ctx, st: Store, ops: seq<Value>, tries: seq<nat>, i: nat)
    requires c.Valid() && i < |c.items| && c.items[i].Op? && c.items[i].op == DeclareGlobal
    ensures Run(c.img, c.At(st, ops, tries, i), 1)
         == c.At(st.(globals := st.globals[c.items[i].arg := NullV]), ops, tries, i + 1)
  {
    hide Run, Execute, Ctx.Valid, CallStep, RetStep, TopStep, Pos, Goto;
    var pc, x := Pos(c.items, i), c.items[i].arg;
    var cfg := c.ConfigAt(st, ops, tries, pc);
    PushStepAt(c, st, ops, tries, i);
    FrameShape(c, st, ops, tries, pc);
    var cfg1 := cfg.(globals := st.globals[x := NullV]);
    assert cfg1.frames[|c.below|] == c.FrameAt(pc, tries);
    Proceed(c, cfg1, st.(globals := st.globals[x := NullV]), ops, tries, pc + 1, cfg.stack);
  }

  lemma StepThrow(c: Ctx, st: Store, ops: seq<Value>, v: Value, tries: seq<nat>, i: nat)
    requires c.Valid() && i < |c.items| && c.items[i].Op? && c.items[i].op == ThrowOp
    ensures Run(c.img, c.At(st, ops + [v], tries, i), 1) == c.RaiseAt(st, ops, tries, v)
  {
    hide Run, Execute, Ctx.Valid, Ctx.RaiseAt, CallStep, RetStep, PushStep, Pos, Unwind;
    var pc := Pos(c.items, i);
    TopStepAt(c, st, ops, v, tries, i);
    assert c.ConfigAt(st, ops + [v], tries, pc).(stack := c.base + st.locals + ops) == c.ConfigAt(st, ops, tries, pc);
    RaisedHere(c, st, ops, tries, pc, c.ConfigAt(st, ops, tries, pc), v);
  }

  lemma StepRet(c: Ctx, st: Store, ops: seq<Value>, v: Value, tries: seq<nat>, i: nat)
    requires c.Valid() && c.fn.Some? && i < |c.items| && c.items[i].Op? && c.items[i].op == Ret
    ensures Run(c.img, c.At(st, ops + [v], tries, i), 1) == c.ReturnAt(st, v)
  {
    hide Pos;
    var pc := Pos(c.items, i);
    var cfg := c.ConfigAt(st, ops + [v], tries, pc);
    StepAt(c, st, ops + [v], tries, i);
    Top(c, st, ops, v, tries, pc);
    FrameShape(c, st, ops + [v], tries, pc);
    assert cfg.stack[..c.Bp()] == c.base[..c.Bp()];
  }

  lemma StepPushTry(c: Ctx, st: Store, ops: seq<Value>, tries: seq<nat>, i: nat)
    requires c.Valid() && i < |c.items| && c.items[i].Ref? && c.items[i].op == PushTry
    ensures Run(c.img, c.At(st, ops, tries, i), 1)
         == c.At(st, ops, tries + [Addr(c.items, c.items[i].lab)], i + 1)
  {
    hide Run, Execute, Ctx.Valid, CallStep, RetStep, TopStep, Pos, Addr, Goto;
    var pc := Pos(c.items, i);
    var a := Addr(c.items, c.items[i].lab);
    var cfg := c.ConfigAt(st, ops, tries, pc);
    PushStepAt(c, st, ops, tries, i);
    FrameShape(c, st, ops, tries, pc);
    var cfg1 := cfg.(frames := cfg.frames[|c.below| := c.FrameAt(pc, tries + [a])]);
    assert cfg1.frames[..|c.below|] == c.below;
    assert cfg1.frames[|c.below|] == c.FrameAt(pc, tries + [a]);
    Proceed(c, cfg1, st, ops, tries + [a], pc + 1, cfg.stack);
  }

  lemma StepPopTry(c: Ctx, st: Store, ops: seq<Value>, tries: seq<nat>, a: nat, i: nat)
    requires c.Valid() && i < |c.items| && c.items[i].Op? && c.items[i].op == PopTry
    ensures Run(c.img, c.At(st, ops, tries + [a], i), 1) == c.At(st, ops, tries, i + 1)
  {
    hide Run, Execute, Ctx.Valid, CallStep, RetStep, TopStep, Pos, Goto;
    var pc := Pos(c.items, i);
    var cfg := c.ConfigAt(st, ops, tries + [a], pc);
    PushStepAt(c, st, ops, tries + [a], i);
    FrameShape(c, st, ops, tries + [a], pc);
    assert (tries + [a])[..|tries + [a]| - 1] == tries;
    var cfg1 := cfg.(frames := cfg.frames[|c.below| := c.FrameAt(pc, tries)]);
    assert cfg1.frames[..|c.below|] == c.below;
    assert cfg1.frames[|c.below|] == c.FrameAt(pc, tries);
    Proceed(c, cfg1, st, ops, tries, pc + 1, cfg.stack);
  }

  /** An error raised under a try reaches the catch clause with the error value pushed
      on whatever the interrupted code had left on the stack. */
  lemma StepCatch(c: Ctx, st: Store, ops: seq<Value>, tries: seq<nat>, err: Value, i: nat)
    requires c.Valid() && i < |c.items| && c.items[i].Op? && c.items[i].op == Catch
    ensures Run(c.img, c.RaiseAt(st, ops, tries + [Pos(c.items, i)], err), 1) == c.At(st, ops + [err], tries, i + 1)
  {
    hide CallStep, RetStep, TopStep, Pos, Goto, EmitUpTo;
    var pc := Pos(c.items, i);
    var ts := tries + [pc];
    var cfg := c.ConfigAt(st, ops, ts, pc).(error := Some(err));
    FrameShape(c, st, ops, ts, pc);
    assert c.RaiseAt(st, ops, ts, err) == Running(cfg) by {
      var fs := c.below + [c.FrameAt(0, ts)];
      assert fs[..|fs| - 1] == c.below;
      assert c.FrameAt(0, ts).(ip := pc) == c.FrameAt(pc, ts);
    }
    Fetch(c.items, i);
    assert Run(c.img, Running(cfg), 0) == Running(cfg);
    assert ts[..|ts| - 1] == tries;
    var cfg1 := cfg.(frames := cfg.frames[|c.below| := c.FrameAt(pc, tries)], error := None);
    assert cfg1.frames[..|c.below|] == c.below;
    assert cfg1.frames[|c.below|] == c.FrameAt(pc, tries);
    assert cfg.stack + [err] == c.base + st.locals + (ops + [err]);
    Proceed(c, cfg1, st, ops + [err], tries, pc + 1, cfg.stack + [err]);
  }
}
