/** The virtual machine as a program: one recursive call of `Eval` per activation, with
    the frame in local variables, a shared value stack, globals behind inline caches, and
    no checks of its own.  It computes what the machine's steps say. */
module Vm {
  import opened Syntax
  import opened Values
  import opened Assembly
  import opened Codegen
  import opened Machine
  import opened GlobalCache

  /** How an instruction, or an activation, ends.  `Pause` is the end of the step budget,
      `Trap` the end of the process. */
  datatype Flow = Dispatch | Error | Return | Exit | Trap | Pause

  /** The name in a load or store of a global. */
  function NameAt(img: Image, at: Site): Name {
    var code := match at.code
                case None => img.main
                case Some(i) => if i < |img.funs| then img.funs[i] else img.main;
    if at.ip < |code.instrs| && code.instrs[at.ip].Instr? then code.instrs[at.ip].arg else 0
  }

  /** No run of the image does anything undefined. */
  ghost predicate Safe(img: Image, globals: map<Name, Value>) {
    forall n :: Run(img, Start(globals), n) != Stuck
  }

  lemma SafeStep(img: Image, globals: map<Name, Value>, n: nat)
    requires Safe(img, globals)
    ensures Run(img, Start(globals), n + 1) == Step(img, Run(img, Start(globals), n)) != Stuck
  {
    assert Run(img, Start(globals), n + 1) != Stuck;
  }

  lemma LastFrame(callers: seq<Frame>, f: Frame)
    ensures var frames := callers + [f]; frames[..|frames| - 1] == callers && frames[|frames| - 1] == f
  {
  }

  /** Where the frame of an error was does not matter. */
  lemma UnwindFrame(stack: seq<Value>, globals: map<Name, Value>, allocs: nat, callers: seq<Frame>, f: Frame, ip: nat, err: Value)
    ensures Unwind(stack, globals, allocs, callers + [f], err) == Unwind(stack, globals, allocs, callers + [f.(ip := ip)], err)
  {
    LastFrame(callers, f);
    LastFrame(callers, f.(ip := ip));
  }

  lemma Caught(stack: seq<Value>, globals: map<Name, Value>, allocs: nat, callers: seq<Frame>, f: Frame, err: Value)
    requires f.tries != []
    ensures Unwind(stack, globals, allocs, callers + [f], err) ==
            Running(Config(stack, globals, allocs, callers + [f.(ip := f.tries[|f.tries| - 1])], Some(err)))
  {
    LastFrame(callers, f);
  }

  lemma Uncaughtable(stack: seq<Value>, globals: map<Name, Value>, allocs: nat, callers: seq<Frame>, f: Frame, err: Value)
    requires f.tries == [] && callers != []
    ensures Unwind(stack, globals, allocs, callers + [f], err) ==
            if f.bp + 1 <= |stack| then Unwind(stack[..f.bp + 1], globals, allocs, callers, err) else Stuck
  {
    LastFrame(callers, f);
  }

  /** What is left when the other groups of instructions are taken away. */
  lemma PushOps(img: Image, c: Config, code: Code, op: Opcode, arg: nat)
    requires c.frames != [] && PushStep(img, c, code, op, arg) != Stuck
    ensures op == Halt ==> PushStep(img, c, code, op, arg) == Halted(c.globals, c.allocs)
    ensures op in {LoadGlobal, DeclareGlobal} ==> PushStep(img, c, code, op, arg) == PushStep(img, c, img.main, op, arg)
    ensures op !in {Halt, LoadGlobal, DeclareGlobal, Jump, LoadLocal, PushTry, PopTry, Catch} ==>
              op in {LoadConst, ConstString, ConstTrue, ConstFalse, ConstNull, AllocateLocals}
  {
  }

  /** The three instructions on globals, by what they do to the parts of a configuration. */
  lemma GlobalSteps(img: Image, c: Config, callers: seq<Frame>, f: Frame, arg: nat)
    requires c.frames == callers + [f]
    ensures var c1 := c.(frames := callers + [f.(ip := f.ip + 1)]);
            && PushStep(img, c, img.main, LoadGlobal, arg)
               == (if arg in c.globals then Running(c1.(stack := c.stack + [c.globals[arg]]))
                   else Unwind(c.stack, c.globals, c.allocs, c.frames, Unbound(img.Text(arg))))
            && PushStep(img, c, img.main, DeclareGlobal, arg) == Running(c1.(globals := c.globals[arg := NullV]))
            && (|c.stack| > 0 ==>
                  var v := c.stack[|c.stack| - 1];
                  TopStep(c, StoreGlobal, arg, c.stack[..|c.stack| - 1], v) == Running(c1.(globals := Stored(c.globals, arg, v))))
  {
    hide Unwind;
    LastFrame(callers, f);
  }

  /** The parts of a frame that only a call decides. */
  predicate SameCall(f: Frame, g: Frame) {
    g.fn == f.fn && g.bp == f.bp && g.nargs == f.nargs
  }

  class Vm {
    const img: Image
    const globals: Globals
    const limit: nat
    ghost const initial: map<Name, Value>
    var stack: seq<Value>
    var allocs: nat
    var error: Option<Value>
    var depth: nat
    var steps: nat

    constructor (img: Image, globals: Globals, limit: nat)
      ensures this.img == img && this.globals == globals && this.limit == limit && initial == globals.Contents()
      ensures stack == [] && allocs == 0 && error == None && depth == 0 && steps == 0
    {
      this.img, this.globals, this.limit := img, globals, limit;
      initial := globals.Contents();
      stack, allocs, error, depth, steps := [], 0, None, 0, 0;
    }

    ghost predicate Ready()
      reads this, globals, globals.table, globals.table.entries
    {
      && globals.Valid() && (forall at :: globals.names(at) == NameAt(img, at))
      && Safe(img, initial) && steps <= limit
    }

    ghost function At(frames: seq<Frame>): Config
      reads this, globals, globals.table
    {
      Config(stack, globals.Contents(), allocs, frames, error)
    }

    /** The state of the machine after an instruction of the last frame. */
    ghost function Now(flow: Flow, frames: seq<Frame>): State
      requires frames != []
      reads this, globals, globals.table
    {
      match flow
      case Dispatch => Running(At(frames))
      case Error => if error.Some? then Unwind(stack, globals.Contents(), allocs, frames, error.value) else Stuck
      case Return => Running(At(frames[..|frames| - 1]))
      case Exit => Halted(globals.Contents(), allocs)
      case Trap => Stopped
      case Pause => Stuck
    }

    method Push(v: Value)
      modifies this`stack
      ensures stack == old(stack) + [v]
    {
      stack := stack + [v];
    }

    method Pop() returns (v: Value)
      requires |stack| > 0
      modifies this`stack
      ensures old(stack) == stack + [v]
    {
      v := stack[|stack| - 1];
      stack := stack[..|stack| - 1];
    }

    method Raise(err: Value) returns (flow: Flow)
      modifies this`error
      ensures flow.Error? && error == Some(err)
    {
      error := Some(err);
      flow := Error;
    }

    /** An operator's result is pushed or raised. */
    method Yielded(r: OpResult) returns (flow: Flow)
      modifies this`stack, this`error
      ensures match r
              case Yield(v) => flow.Dispatch? && stack == old(stack) + [v] && error == old(error)
              case Raise(err) => flow.Error? && stack == old(stack) && error == Some(err)
              case Abort => flow == Trap && stack == old(stack) && error == old(error)
    {
      match r
      case Yield(v) => Push(v); flow := Dispatch;
      case Raise(err) => flow := Raise(err);
      case Abort => flow := Trap;
    }

    method LoadConstant(ghost callers: seq<Frame>, f: Frame, code: Code, op: Opcode, arg: nat) returns (g: Frame)
      requires op in {LoadConst, ConstString, ConstTrue, ConstFalse, ConstNull, AllocateLocals}
      requires PushStep(img, At(callers + [f]), code, op, arg) != Stuck
      modifies this`stack, this`allocs
      ensures PushStep(img, old(At(callers + [f])), code, op, arg) == Running(At(callers + [g])) && SameCall(f, g)
    {
      LastFrame(callers, f);
      g := f.(ip := f.ip + 1);
      match op
      case LoadConst =>
        match code.consts[arg] {
          case IntConst(n) => Push(IntV(n));
          case FunConst(fn) =>
            Push(FunV(fn, allocs));
            allocs := allocs + 1;
        }
      case ConstString => Push(StrV(img.Text(arg)));
      case ConstTrue => Push(BoolV(true));
      case ConstFalse => Push(BoolV(false));
      case ConstNull => Push(NullV);
      case AllocateLocals => stack := stack + seq(arg, _ => NullV);
    }

    /** Instructions that look at the top of the stack and stay in the frame. */
    method UseTop(ghost callers: seq<Frame>, f: Frame, op: Opcode, arg: nat) returns (g: Frame, flow: Flow)
      requires UsesTop(op) && op != StoreGlobal && |stack| > 0
      requires TopStep(At(callers + [f]), op, arg, stack[..|stack| - 1], stack[|stack| - 1]) != Stuck
      modifies this`stack, this`error
      ensures TopStep(old(At(callers + [f])), op, arg, old(stack[..|stack| - 1]), old(stack[|stack| - 1])) == Now(flow, callers + [g])
      ensures SameCall(f, g) && !flow.Return? && !flow.Pause?
    {
      hide ApplyUnary, ApplyBump, ApplyBinary, Truthy;
      LastFrame(callers, f);
      g := f.(ip := f.ip + 1);
      flow := Dispatch;
      match op {
        case Un(u) =>
          var a := Pop();
          flow := Yielded(ApplyUnary(u, a));
        case Inc =>
          var a := Pop();
          flow := Yielded(ApplyBump(true, a));
        case Dec =>
          var a := Pop();
          flow := Yielded(ApplyBump(false, a));
        case Bin(b) =>
          var y := Pop();
          var x := Pop();
          flow := Yielded(ApplyBinary(b, x, y));
        case JumpIfTrue =>
          var pred := Pop();
          if Truthy(pred) {
            g := f.(ip := arg);
          }
        case JumpIfFalse =>
          var pred := Pop();
          if !Truthy(pred) {
            g := f.(ip := arg);
          }
        case Pop =>
          var _ := Pop();
        case Dup =>
          Push(stack[|stack| - 1]);
        case StoreLocal =>
          stack := stack[f.bp + 1 + arg := stack[|stack| - 1]];
        case ThrowOp =>
          var err := Pop();
          flow := Raise(err);
      }
      UnwindAnywhere(callers, f, g.ip);
    }

    lemma UnwindAnywhere(callers: seq<Frame>, f: Frame, ip: nat)
      ensures Now(Error, callers + [f]) == Now(Error, callers + [f.(ip := ip)])
    {
      if error.Some? {
        UnwindFrame(stack, globals.Contents(), allocs, callers, f, ip, error.value);
      }
    }

    /** Jumps, locals and the try stack. */
    method Move(ghost callers: seq<Frame>, f: Frame, code: Code, op: Opcode, arg: nat) returns (g: Frame)
      requires op in {Jump, LoadLocal, PushTry, PopTry, Catch}
      requires PushStep(img, At(callers + [f]), code, op, arg) != Stuck
      modifies this`stack, this`error
      ensures PushStep(img, old(At(callers + [f])), code, op, arg) == Running(At(callers + [g])) && SameCall(f, g)
    {
      LastFrame(callers, f);
      g := f.(ip := f.ip + 1);
      match op
      case Jump => g := f.(ip := arg);
      case LoadLocal => Push(stack[f.bp + 1 + arg]);
      case PushTry => g := g.(tries := f.tries + [arg]);
      case PopTry => g := g.(tries := f.tries[..|f.tries| - 1]);
      case Catch =>
        g := g.(tries := f.tries[..|f.tries| - 1]);
        Push(error.value);
        error := None;
    }

    method ReturnValue(ghost callers: seq<Frame>, f: Frame)
      requires RetStep(At(callers + [f])) != Stuck
      modifies this`stack
      ensures RetStep(old(At(callers + [f]))) == Running(At(callers)) && |stack| == f.bp + 1 && callers != []
    {
      LastFrame(callers, f);
      var retval := stack[|stack| - 1];
      stack := stack[..f.bp];
      Push(retval);
    }

    method UseGlobal(ghost callers: seq<Frame>, f: Frame, op: Opcode, arg: nat) returns (g: Frame, flow: Flow)
      requires Ready() && op in {LoadGlobal, DeclareGlobal, StoreGlobal} && arg == NameAt(img, Site(f.fn, f.ip))
      requires op == StoreGlobal ==> |stack| > 0
      modifies this`stack, this`error, globals, globals.table, globals.table.entries
      ensures Ready() && (globals.table.entries == old(globals.table.entries) || fresh(globals.table.entries))
      ensures SameCall(f, g) && !flow.Return? && !flow.Pause?
      ensures Now(flow, callers + [g]) ==
              if op == StoreGlobal then TopStep(old(At(callers + [f])), op, arg, old(stack[..|stack| - 1]), old(stack[|stack| - 1]))
              else PushStep(img, old(At(callers + [f])), img.main, op, arg)
    {
      hide Safe, PushStep, TopStep, Unwind, NameAt;
      GlobalSteps(img, At(callers + [f]), callers, f, arg);
      g := f.(ip := f.ip + 1);
      flow := Dispatch;
      var at := Site(f.fn, f.ip);
      match op
      case LoadGlobal =>
        flow := LoadVariable(at, arg);
        UnwindAnywhere(callers, f, f.ip + 1);
      case DeclareGlobal =>
        globals.DeclareGlobal(arg);
      case StoreGlobal =>
        globals.StoreGlobal(at, stack[|stack| - 1]);
    }

    method LoadVariable(at: Site, x: Name) returns (flow: Flow)
      requires Ready() && globals.names(at) == x
      modifies this`stack, this`error, globals
      ensures Ready() && globals.table.entries == old(globals.table.entries) && globals.Contents() == old(globals.Contents())
      ensures if x in globals.Contents() then flow.Dispatch? && stack == old(stack) + [globals.Contents()[x]] && error == old(error)
              else flow.Error? && stack == old(stack) && error == Some(Unbound(img.Text(x)))
    {
      hide Safe;
      var v := globals.LoadGlobal(at);
      match v {
        case Some(value) =>
          Push(value);
          flow := Dispatch;
        case None =>
          flow := Raise(Unbound(img.Text(x)));
      }
    }

    /** Where the run is after `steps` instructions, as seen from one activation. */
    ghost predicate Shows(flow: Flow, frames: seq<Frame>)
      requires frames != []
      reads this, globals, globals.table
    {
      var s := Run(img, Start(initial), steps);
      if flow.Pause? then s.Running? && steps == limit else s == Now(flow, frames)
    }

    /** The state of a call that has just been made; the 1000th activation fails. */
    ghost function Entered(callers: seq<Frame>, f: Frame): State
      reads this, globals, globals.table
    {
      if |callers| + 1 >= MAX_DEPTH then Unwind(stack, globals.Contents(), allocs, callers + [f], STACK_OVERFLOW)
      else Running(At(callers + [f]))
    }

    /** Whether the callee can be called with `n` arguments. */
    method CheckCall(ghost callers: seq<Frame>, f: Frame, n: nat) returns (flow: Flow)
      requires CallStep(img, At(callers + [f]), n) != Stuck
      modifies this`error
      ensures flow.Dispatch? || flow.Error? || flow.Trap?
      ensures !flow.Dispatch? ==> CallStep(img, old(At(callers + [f])), n) == Now(flow, callers + [f])
      ensures flow.Dispatch? ==>
                && error == old(error) && |stack| >= n + 1 && stack[|stack| - n - 1].FunV?
                && CallStep(img, At(callers + [f]), n)
                   == Entered(callers + [f.(ip := f.ip + 1)], Frame(Some(stack[|stack| - n - 1].code), 0, |stack| - n - 1, n, []))
    {
      LastFrame(callers, f);
      var callee := stack[|stack| - n - 1];
      if !callee.FunV? {
        flow := Raise(NotCallable(callee));
      } else if callee.code >= |img.funs| {
        flow := Trap;
      } else if img.funs[callee.code].arity > n {
        flow := Raise(TooFew(img.Text(img.funs[callee.code].name)));
      } else {
        flow := Dispatch;
        assert forall g, h: Frame :: callers + [g, h] == (callers + [g]) + [h];
      }
    }

    /** The callee and `n` arguments are on the stack.  Afterwards the stack is cut back
        to just above the callee's place, which holds the result of a call that returned. */
    method DoCall(ghost callers: seq<Frame>, f: Frame, n: nat) returns (g: Frame, flow: Flow)
      requires Ready() && steps < limit && depth == |callers| + 1
      requires CallStep(img, At(callers + [f]), n) != Stuck
      requires Run(img, Start(initial), steps + 1) == CallStep(img, At(callers + [f]), n)
      modifies this, globals, globals.table, globals.table.entries
      decreases limit - steps, 0
      ensures Ready() && old(steps) < steps && depth == old(depth)
      ensures globals.table.entries == old(globals.table.entries) || fresh(globals.table.entries)
      ensures Shows(flow, callers + [g]) && !flow.Return? && SameCall(f, g)
    {
      hide Run, Safe, CallStep, Unwind;
      g := f;
      flow := CheckCall(callers, f, n);
      steps := steps + 1;
      if !flow.Dispatch? {
        return;
      }
      g := f.(ip := f.ip + 1);
      var bp := |stack| - n - 1;
      ghost var last;
      flow, last := Eval(callers + [g], Some(stack[bp].code), bp, n);
      if flow.Return? {
        LastFrame(callers + [g], last);
        assert stack[..bp + 1] == stack;
        flow := Dispatch;
      } else if flow.Error? {
        LeftFrame(callers + [g], last);
        stack := stack[..bp + 1];
      }
    }

    lemma ErrorIsSet(frames: seq<Frame>)
      requires frames != [] && Ready() && Shows(Error, frames)
      ensures error.Some?
    {
      assert Run(img, Start(initial), steps) != Stuck;
    }

    /** An error leaves a frame without active try. */
    lemma LeftFrame(callers: seq<Frame>, last: Frame)
      requires Ready() && Shows(Error, callers + [last]) && callers != [] && last.tries == []
      ensures last.bp + 1 <= |stack| && error.Some?
      ensures Run(img, Start(initial), steps) == Unwind(stack[..last.bp + 1], globals.Contents(), allocs, callers, error.value)
    {
      hide Run, Unwind;
      assert Run(img, Start(initial), steps) != Stuck;
      Uncaughtable(stack, globals.Contents(), allocs, callers, last, error.value);
    }

    /** One turn of the dispatch loop. */
    method Instruction(ghost callers: seq<Frame>, f: Frame) returns (g: Frame, flow: Flow)
      requires Ready() && steps < limit && depth == |callers| + 1
      requires Run(img, Start(initial), steps) == Running(At(callers + [f]))
      modifies this, globals, globals.table, globals.table.entries
      decreases limit - steps, 1
      ensures Ready() && old(steps) < steps && depth == old(depth)
      ensures globals.table.entries == old(globals.table.entries) || fresh(globals.table.entries)
      ensures Shows(flow, callers + [g]) && SameCall(f, g)
      ensures flow.Return? ==> |stack| == f.bp + 1 && callers != []
    {
      hide Run, Safe, CallStep, Execute, Unwind;
      LastFrame(callers, f);
      SafeStep(img, initial, steps);
      var code := match f.fn case None => img.main case Some(i) => img.funs[i];
      var op, arg := code.instrs[f.ip].op, code.instrs[f.ip].arg;
      if op == CallFn {
        CallIsStep(At(callers + [f]), code, arg);
        g, flow := DoCall(callers, f, arg);
      } else {
        g, flow := Other(callers, f, code, op, arg);
        steps := steps + 1;
      }
    }

    lemma CallIsStep(c: Config, code: Code, arg: nat)
      requires c.frames != []
      ensures Execute(img, c, code, CallFn, arg) == CallStep(img, c, arg)
    {
      hide CallStep;
    }

    /** Every instruction but a call. */
    method Other(ghost callers: seq<Frame>, f: Frame, code: Code, op: Opcode, arg: nat) returns (g: Frame, flow: Flow)
      requires Ready() && op != CallFn && arg == NameAt(img, Site(f.fn, f.ip))
      requires Execute(img, At(callers + [f]), code, op, arg) != Stuck
      modifies this`stack, this`allocs, this`error, globals, globals.table, globals.table.entries
      ensures Ready() && (globals.table.entries == old(globals.table.entries) || fresh(globals.table.entries))
      ensures Now(flow, callers + [g]) == Execute(img, old(At(callers + [f])), code, op, arg)
      ensures SameCall(f, g) && !flow.Pause? && (flow.Return? ==> |stack| == f.bp + 1 && callers != [])
    {
      hide Run, Safe, CallStep, RetStep, TopStep, PushStep, Unwind, NameAt;
      LastFrame(callers, f);
      if op != Ret && !UsesTop(op) {
        PushOps(img, At(callers + [f]), code, op, arg);
      }
      if op == Ret {
        ReturnValue(callers, f);
        g, flow := f, Flow.Return;
      } else if op == Halt {
        g, flow := f, Exit;
      } else if op in {LoadGlobal, DeclareGlobal, StoreGlobal} {
        g, flow := UseGlobal(callers, f, op, arg);
      } else if UsesTop(op) {
        g, flow := UseTop(callers, f, op, arg);
      } else if op in {Jump, LoadLocal, PushTry, PopTry, Catch} {
        g := Move(callers, f, code, op, arg);
        flow := Dispatch;
      } else {
        g := LoadConstant(callers, f, code, op, arg);
        flow := Dispatch;
      }
    }

    /** `cb_eval`: one activation, from its first instruction to its end. */
    method Eval(ghost callers: seq<Frame>, fn: Option<nat>, bp: nat, nargs: nat) returns (flow: Flow, ghost last: Frame)
      requires Ready() && depth == |callers|
      requires Run(img, Start(initial), steps) == Entered(callers, Frame(fn, 0, bp, nargs, []))
      modifies this, globals, globals.table, globals.table.entries
      decreases limit - steps, 2
      ensures Ready() && old(steps) <= steps && depth == old(depth)
      ensures globals.table.entries == old(globals.table.entries) || fresh(globals.table.entries)
      ensures Shows(flow, callers + [last]) && !flow.Dispatch?
      ensures last.bp == bp && last.tries == []
      ensures flow.Return? ==> |stack| == bp + 1 && callers != []
    {
      hide Run, Safe, Unwind;
      var f := Frame(fn, 0, bp, nargs, []);
      LastFrame(callers, f);
      depth := depth + 1;
      flow := Dispatch;
      if depth >= MAX_DEPTH {
        flow := Raise(STACK_OVERFLOW);
      }
      while flow.Dispatch? || (flow.Error? && f.tries != [])
        invariant Ready() && old(steps) <= steps && depth == old(depth) + 1
        invariant globals.table.entries == old(globals.table.entries) || fresh(globals.table.entries)
        invariant Shows(flow, callers + [f]) && f.fn == fn && f.bp == bp
        invariant flow.Return? ==> |stack| == bp + 1 && callers != []
        decreases limit - steps, if flow.Error? then 2 else if flow.Dispatch? then 1 else 0
      {
        if flow.Error? {
          ErrorIsSet(callers + [f]);
          Caught(stack, globals.Contents(), allocs, callers, f, error.value);
          f := f.(ip := f.tries[|f.tries| - 1]);
          flow := Dispatch;
        } else if steps == limit {
          flow := Pause;
        } else {
          f, flow := Instruction(callers, f);
        }
      }
      depth := depth - 1;
      last := f.(tries := []);
    }

    /** A module's code on an empty stack. */
    method RunModule() returns (flow: Flow)
      requires Ready() && stack == [] && allocs == 0 && error == None && depth == 0 && steps == 0
      requires initial == globals.Contents()
      modifies this, globals, globals.table, globals.table.entries
      ensures Ready() && flow in {Exit, Error, Trap, Pause}
      ensures var s := Run(img, Start(initial), steps);
              match flow
              case Pause => s.Running? && steps == limit
              case Error => error.Some? && s == Uncaught(error.value, globals.Contents(), allocs)
              case Exit => s == Halted(globals.Contents(), allocs)
              case _ => s == Stopped
    {
      ghost var last;
      flow, last := Eval([], None, 0, 0);
      LastFrame([], last);
    }
  }
}
