/** The virtual machine: one step of the dispatch loop on the instructions of the
    fragment, with the shared value stack, the frames of nested activations, their
    try stacks, and the unwinding of errors through frames. */
module Machine {
  import opened Syntax
  import opened Values
  import opened Assembly
  import opened Codegen

  /** A compiled function or module body. */
  datatype Code = Code(instrs: seq<Instr>, consts: seq<Constant>, name: Name, arity: nat)

  /** Everything a run needs: the module's code, the functions its constants refer to,
      and the table of interned strings. */
  datatype Image = Image(main: Code, funs: seq<Code>, strings: seq<string>) {
    function Text(id: nat): string { if id < |strings| then strings[id] else "" }
  }

  /** An activation.  `fn` is None for the module body, which has no function value at
      `bp` and no arguments. */
  datatype Frame = Frame(fn: Option<nat>, ip: nat, bp: nat, nargs: nat, tries: seq<nat>)

  /** `frames` grows towards the end; its last element is the running activation. */
  datatype Config = Config(stack: seq<Value>, globals: map<Name, Value>, allocs: nat,
                           frames: seq<Frame>, error: Option<Value>)

  /** `Stuck` stands for behaviour the C code leaves undefined: an empty stack popped,
      a jump out of the code, a missing local or constant. */
  datatype State =
    | Running(c: Config)
    | Halted(globals: map<Name, Value>, allocs: nat)
    | Uncaught(err: Value, globals: map<Name, Value>, allocs: nat)
    | Stopped
    | Stuck

  const MAX_DEPTH: nat := 1000

  function CodeOf(img: Image, f: Frame): Option<Code> {
    match f.fn
    case None => Some(img.main)
    case Some(i) => if i < |img.funs| then Some(img.funs[i]) else None
  }

  /** An error is raised in the last frame.  With a try active, control goes to the
      innermost catch label and nothing is popped from either stack; without one the
      frame ends, the caller's stack is cut back to just above the callee's function
      value, and the error continues there. */
  function Unwind(stack: seq<Value>, globals: map<Name, Value>, allocs: nat, frames: seq<Frame>, err: Value): State
    decreases |frames|
  {
    if frames == [] then Uncaught(err, globals, allocs)
    else
      var below, f := frames[..|frames| - 1], frames[|frames| - 1];
      if f.tries != [] then
        Running(Config(stack, globals, allocs, below + [f.(ip := f.tries[|f.tries| - 1])], Some(err)))
      else if below == [] then Uncaught(err, globals, allocs)
      else if f.bp + 1 <= |stack| then Unwind(stack[..f.bp + 1], globals, allocs, below, err)
      else Stuck
  }

  function Raised(c: Config, err: Value): State {
    Unwind(c.stack, c.globals, c.allocs, c.frames, err)
  }

  /** The running frame with a new stack, continuing at `ip`. */
  function Goto(c: Config, stack: seq<Value>, ip: nat): State
    requires c.frames != []
  {
    var n := |c.frames| - 1;
    Running(c.(stack := stack, frames := c.frames[..n] + [c.frames[n].(ip := ip)]))
  }

  function Next(c: Config, stack: seq<Value>): State
    requires c.frames != []
  {
    Goto(c, stack, c.frames[|c.frames| - 1].ip + 1)
  }

  function Finish(c: Config, rest: seq<Value>, r: OpResult): State
    requires c.frames != []
  {
    match r
    case Yield(v) => Next(c, rest + [v])
    case Raise(err) => Raised(c.(stack := rest), err)
    case Abort => Stopped
  }

  function NotCallable(v: Value): Value {
    StrV("Value of type '" + TypeName(v) + "' is not callable\n")
  }

  function TooFew(name: string): Value {
    StrV("Too few arguments to function '" + name + "'\n")
  }

  function Unbound(name: string): Value {
    StrV("Unbound global '" + name + "'")
  }

  const STACK_OVERFLOW: Value := StrV("Stack overflow")

  /** `do_call`: the callee and `n` arguments are on the stack.  The new activation runs
      on the same stack; the 1000th nested one fails at once.  (A function value always
      has its code; an index without code ends the run.) */
  function CallStep(img: Image, c: Config, n: nat): State
    requires c.frames != []
  {
    if |c.stack| < n + 1 then Stuck
    else
      var bp := |c.stack| - n - 1;
      var callee := c.stack[bp];
      if !callee.FunV? then Raised(c, NotCallable(callee))
      else if callee.code >= |img.funs| then Stopped
      else
        var code := img.funs[callee.code];
        if code.arity > n then Raised(c, TooFew(img.Text(code.name)))
        else
          var top := |c.frames| - 1;
          var caller := c.frames[top].(ip := c.frames[top].ip + 1);
          var frames := c.frames[..top] + [caller, Frame(Some(callee.code), 0, bp, n, [])];
          if |frames| >= MAX_DEPTH then Raised(c.(frames := frames), STACK_OVERFLOW)
          else Running(c.(frames := frames))
  }

  function RetStep(c: Config): State
    requires c.frames != []
  {
    var top := |c.frames| - 1;
    var f := c.frames[top];
    if |c.stack| == 0 || top == 0 || f.bp > |c.stack| then Stuck
    else Running(c.(stack := c.stack[..f.bp] + [c.stack[|c.stack| - 1]], frames := c.frames[..top]))
  }

  function ConstStep(c: Config, k: Constant): State
    requires c.frames != []
  {
    match k
    case IntConst(n) => Next(c, c.stack + [IntV(n)])
    case FunConst(fn) => Next(c.(allocs := c.allocs + 1), c.stack + [FunV(fn, c.allocs)])
  }

  /** Instructions that need nothing on the stack. */
  function PushStep(img: Image, c: Config, code: Code, op: Opcode, arg: nat): State
    requires c.frames != []
  {
    var f := c.frames[|c.frames| - 1];
    match op
    case Halt => Halted(c.globals, c.allocs)
    case LoadConst => if arg < |code.consts| then ConstStep(c, code.consts[arg]) else Stuck
    case ConstString => Next(c, c.stack + [StrV(img.Text(arg))])
    case ConstTrue => Next(c, c.stack + [BoolV(true)])
    case ConstFalse => Next(c, c.stack + [BoolV(false)])
    case ConstNull => Next(c, c.stack + [NullV])
    case Jump => Goto(c, c.stack, arg)
    case LoadLocal => if f.bp + 1 + arg < |c.stack| then Next(c, c.stack + [c.stack[f.bp + 1 + arg]]) else Stuck
    case LoadGlobal =>
      if arg in c.globals then Next(c, c.stack + [c.globals[arg]])
      else Raised(c, Unbound(img.Text(arg)))
    case DeclareGlobal => Next(c.(globals := c.globals[arg := NullV]), c.stack)
    case AllocateLocals => Next(c, c.stack + seq(arg, _ => NullV))
    case PushTry => Next(c.(frames := c.frames[|c.frames| - 1 := f.(tries := f.tries + [arg])]), c.stack)
    case PopTry =>
      if f.tries == [] then Stuck
      else Next(c.(frames := c.frames[|c.frames| - 1 := f.(tries := f.tries[..|f.tries| - 1])]), c.stack)
    case Catch =>
      if f.tries == [] || c.error.None? then Stuck
      else
        Next(c.(frames := c.frames[|c.frames| - 1 := f.(tries := f.tries[..|f.tries| - 1])], error := None),
             c.stack + [c.error.value])
    case _ => Stuck
  }

  /** Instructions that use the top of the stack `v`; `rest` is what is below it. */
  function TopStep(c: Config, op: Opcode, arg: nat, rest: seq<Value>, v: Value): State
    requires c.frames != []
    requires c.stack == rest + [v]
  {
    var f := c.frames[|c.frames| - 1];
    match op
    case Un(u) => Finish(c, rest, ApplyUnary(u, v))
    case Inc => Finish(c, rest, ApplyBump(true, v))
    case Dec => Finish(c, rest, ApplyBump(false, v))
    case Bin(b) =>
      if |rest| == 0 then Stuck
      else Finish(c, rest[..|rest| - 1], ApplyBinary(b, rest[|rest| - 1], v))
    case JumpIfTrue => if Truthy(v) then Goto(c, rest, arg) else Next(c, rest)
    case JumpIfFalse => if !Truthy(v) then Goto(c, rest, arg) else Next(c, rest)
    case Pop => Next(c, rest)
    case Dup => Next(c, c.stack + [v])
    case StoreLocal => if f.bp + 1 + arg < |c.stack| then Next(c, c.stack[f.bp + 1 + arg := v]) else Stuck
    case StoreGlobal => Next(if arg in c.globals then c.(globals := c.globals[arg := v]) else c, c.stack)
    case ThrowOp => Raised(c.(stack := rest), v)
    case _ => Stuck
  }

  predicate UsesTop(op: Opcode) {
    op.Un? || op.Inc? || op.Dec? || op.Bin? || op.JumpIfTrue? || op.JumpIfFalse? || op.Pop? || op.Dup?
    || op.StoreLocal? || op.StoreGlobal? || op.ThrowOp?
  }

  function Execute(img: Image, c: Config, code: Code, op: Opcode, arg: nat): State
    requires c.frames != []
  {
    if op == CallFn then CallStep(img, c, arg)
    else if op == Ret then RetStep(c)
    else if UsesTop(op) then
      if |c.stack| == 0 then Stuck
      else TopStep(c, op, arg, c.stack[..|c.stack| - 1], c.stack[|c.stack| - 1])
    else PushStep(img, c, code, op, arg)
  }

  function Step(img: Image, s: State): State {
    if !s.Running? then s
    else if s.c.frames == [] then Stuck
    else
      var f := s.c.frames[|s.c.frames| - 1];
      match CodeOf(img, f)
      case None => Stuck
      case Some(code) =>
        if f.ip >= |code.instrs| || !code.instrs[f.ip].Instr? then Stuck
        else Execute(img, s.c, code, code.instrs[f.ip].op, code.instrs[f.ip].arg)
  }

  function Run(img: Image, s: State, n: nat): State {
    if n == 0 then s else Step(img, Run(img, s, n - 1))
  }

  function Start(globals: map<Name, Value>): State {
    Running(Config([], globals, 0, [Frame(None, 0, 0, 0, [])], None))
  }

  lemma {:induction false} RunAdd(img: Image, s: State, m: nat, n: nat)
    ensures Run(img, s, m + n) == Run(img, Run(img, s, m), n)
  {
    if n > 0 {
      RunAdd(img, s, m, n - 1);
      assert Run(img, s, m + n) == Step(img, Run(img, s, m + (n - 1)));
    }
  }

  /** A machine that is still running has been running all along. */
  lemma {:induction false} StillRunning(img: Image, s: State, m: nat, n: nat)
    requires m <= n && Run(img, s, n).Running?
    ensures Run(img, s, m).Running?
  {
    if m < n {
      StillRunning(img, s, m, n - 1);
    }
  }

  lemma {:induction false} FinalStays(img: Image, s: State, n: nat)
    requires !s.Running?
    ensures Run(img, s, n) == s
  {
    if n > 0 {
      FinalStays(img, s, n - 1);
    }
  }
}
