/** What one step of the machine does to the frames and to the height of the stack,
    whatever the values are. */
module Shapes {
  import opened Syntax
  import opened Values
  import opened Assembly
  import opened Codegen
  import opened Effects
  import opened Machine

  /** The ways in which a running machine can go on: the frame continues at the next
      instruction or at the argument of a jump; another frame is put on top; the frame is
      left with its value; or an error is caught by one of `frames`, the first `kept` of
      which remain. */
  datatype Shape =
    | Continues(jumps: bool)
    | Calls(callee: Frame)
    | Leaves
    | Catches(frames: seq<Frame>, kept: nat)

  function Current(c: Config): Frame
    requires c.frames != []
  {
    c.frames[|c.frames| - 1]
  }

  function Under(c: Config): seq<Frame>
    requires c.frames != []
  {
    c.frames[..|c.frames| - 1]
  }

  /** The running frame after an instruction that stays in it. */
  function FrameAfter(f: Frame, op: Opcode, arg: nat, jumps: bool): Frame {
    if jumps then f.(ip := arg)
    else if op == PushTry then f.(ip := f.ip + 1, tries := f.tries + [arg])
    else if op in {PopTry, Catch} && f.tries != [] then f.(ip := f.ip + 1, tries := f.tries[..|f.tries| - 1])
    else f.(ip := f.ip + 1)
  }

  /** Operands won or lost; a jump itself moves nothing. */
  function Rise(op: Opcode, arg: nat): int { if op == Jump then 0 else StackEffect(op, arg) }

  predicate IsCallee(img: Image, f: Frame) {
    f.ip == 0 && f.tries == [] && f.fn.Some? && f.fn.value < |img.funs|
  }

  /** The next instruction raises an error. */
  predicate Raises(img: Image, c: Config, op: Opcode, arg: nat) {
    var n := |c.stack|;
    match op
    case ThrowOp => true
    case Un(u) => n > 0 && ApplyUnary(u, c.stack[n - 1]).Raise?
    case Inc => n > 0 && ApplyBump(true, c.stack[n - 1]).Raise?
    case Dec => n > 0 && ApplyBump(false, c.stack[n - 1]).Raise?
    case Bin(b) => n > 1 && ApplyBinary(b, c.stack[n - 2], c.stack[n - 1]).Raise?
    case LoadGlobal => arg !in c.globals
    case CallFn =>
      arg < n
      && var callee := c.stack[n - arg - 1];
         !callee.FunV?
         || (callee.code < |img.funs| && (img.funs[callee.code].arity > arg || |c.frames| + 1 >= MAX_DEPTH))
    case _ => false
  }

  /** The machine fetches an instruction that raises an error. */
  predicate RaisesNow(img: Image, c: Config) {
    && c.frames != [] && CodeOf(img, Current(c)).Some?
    && var f, instrs := Current(c), CodeOf(img, Current(c)).value.instrs;
       f.ip < |instrs| && instrs[f.ip].Instr? && Raises(img, c, instrs[f.ip].op, instrs[f.ip].arg)
  }

  /** The operands that have been popped when an instruction raises its error: a call has
      popped none. */
  function Drops(op: Opcode): nat {
    match op
    case Un(_) => 1
    case Inc => 1
    case Dec => 1
    case Bin(_) => 2
    case ThrowOp => 1
    case _ => 0
  }

  ghost predicate Has(img: Image, c: Config, op: Opcode, arg: nat, c1: Config, sh: Shape)
    requires c.frames != []
  {
    (sh.Catches? <==> Raises(img, c, op, arg)) &&
    match sh
    case Continues(jumps) =>
      && op !in {CallFn, Ret, Halt, ThrowOp}
      && (jumps ==> op in {Jump, JumpIfTrue, JumpIfFalse}) && (op == Jump ==> jumps)
      && c1.frames == Under(c) + [FrameAfter(Current(c), op, arg, jumps)]
      && |c1.stack| == |c.stack| + Rise(op, arg)
      && (op in {PopTry, Catch} ==> Current(c).tries != [])
      && (op == Catch ==> c.error.Some?) && (op != Catch ==> c1.error == c.error)
    case Calls(callee) =>
      && op == CallFn && arg < |c.stack| && callee.bp == |c.stack| - arg - 1 && callee.nargs == arg
      && IsCallee(img, callee)
      && c1.frames == Under(c) + [Current(c).(ip := Current(c).ip + 1), callee]
      && c1.stack == c.stack && c1.error == c.error
    case Leaves =>
      && op == Ret && |c.frames| > 1
      && c1.frames == Under(c) && |c1.stack| == Current(c).bp + 1 && c1.error == c.error
    case Catches(frames, kept) =>
      && 0 < kept <= |frames| && frames[kept - 1].tries != [] && c1.error.Some?
      && (forall i :: kept <= i < |frames| ==> frames[i].tries == [])
      && c1.frames == frames[..kept - 1] + [CaughtIn(frames[kept - 1])]
      && |c1.stack| == (if kept == |frames| then |c.stack| - Drops(op) else frames[kept].bp + 1)
      && (frames == c.frames
          || exists callee: Frame ::
               op == CallFn && arg < |c.stack| && callee.bp == |c.stack| - arg - 1 && IsCallee(img, callee) && frames == Under(c) + [Current(c).(ip := Current(c).ip + 1), callee])
  }

  function CaughtIn(f: Frame): Frame
    requires f.tries != []
  {
    f.(ip := f.tries[|f.tries| - 1])
  }

  lemma {:induction false} UnwindShape(stack: seq<Value>, globals: map<Name, Value>, allocs: nat, frames: seq<Frame>, err: Value)
    returns (kept: nat)
    ensures var s := Unwind(stack, globals, allocs, frames, err);
            s.Running? ==>
              && 0 < kept <= |frames| && frames[kept - 1].tries != [] && s.c.error.Some?
              && s.c.frames == frames[..kept - 1] + [CaughtIn(frames[kept - 1])]
              && (forall i :: kept <= i < |frames| ==> frames[i].tries == [])
              && |s.c.stack| == (if kept == |frames| then |stack| else frames[kept].bp + 1)
    decreases |frames|
  {
    kept := |frames|;
    if frames != [] {
      var below, f := frames[..|frames| - 1], frames[|frames| - 1];
      if f.tries == [] && below != [] && f.bp + 1 <= |stack| {
        kept := UnwindShape(stack[..f.bp + 1], globals, allocs, below, err);
        assert 0 < kept <= |below| ==> frames[..kept - 1] == below[..kept - 1];
      }
    }
  }

  lemma RaisedShape(img: Image, c: Config, op: Opcode, arg: nat, c1: Config, err: Value, s: State) returns (sh: Shape)
    requires c.frames != [] && c1.frames == c.frames && s == Raised(c1, err)
    requires Raises(img, c, op, arg) && |c1.stack| == |c.stack| - Drops(op)
    ensures s.Running? ==> Has(img, c, op, arg, s.c, sh)
  {
    hide Unwind;
    var kept := UnwindShape(c1.stack, c1.globals, c1.allocs, c1.frames, err);
    sh := Catches(c.frames, kept);
  }

  lemma CallShape(img: Image, c: Config, n: nat) returns (sh: Shape)
    requires c.frames != []
    ensures var s := CallStep(img, c, n); s.Running? ==> Has(img, c, CallFn, n, s.c, sh)
  {
    hide Unwind;
    sh := Leaves;
    if n < |c.stack| {
      var bp := |c.stack| - n - 1;
      var callee := c.stack[bp];
      if !callee.FunV? {
        sh := RaisedShape(img, c, CallFn, n, c, NotCallable(callee), CallStep(img, c, n));
      } else if callee.code < |img.funs| {
        var code := img.funs[callee.code];
        if code.arity > n {
          sh := RaisedShape(img, c, CallFn, n, c, TooFew(img.Text(code.name)), CallStep(img, c, n));
        } else {
          var f := Frame(Some(callee.code), 0, bp, n, []);
          var frames := Under(c) + [Current(c).(ip := Current(c).ip + 1), f];
          if |frames| >= MAX_DEPTH {
            var kept := UnwindShape(c.stack, c.globals, c.allocs, frames, STACK_OVERFLOW);
            sh := Catches(frames, kept);
            assert IsCallee(img, f) && frames == Under(c) + [Current(c).(ip := Current(c).ip + 1), f];
          } else {
            sh := Calls(f);
          }
        }
      }
    }
  }

  lemma FinishShape(img: Image, c: Config, op: Opcode, arg: nat, rest: seq<Value>, r: OpResult) returns (sh: Shape)
    requires c.frames != [] && op !in {CallFn, Ret, Halt, ThrowOp, Jump, PushTry, PopTry, Catch}
    requires |rest| + 1 == |c.stack| + StackEffect(op, arg) && |rest| == |c.stack| - Drops(op)
    requires r.Raise? <==> Raises(img, c, op, arg)
    ensures var s := Finish(c, rest, r); s.Running? ==> Has(img, c, op, arg, s.c, sh)
  {
    hide Unwind;
    match r
    case Yield(v) => sh := Continues(false);
    case Raise(err) => sh := RaisedShape(img, c, op, arg, c.(stack := rest), err, Finish(c, rest, r));
    case Abort => sh := Leaves;
  }

  lemma TopShape(img: Image, c: Config, op: Opcode, arg: nat, rest: seq<Value>, v: Value) returns (sh: Shape)
    requires c.frames != [] && UsesTop(op) && c.stack == rest + [v]
    ensures var s := TopStep(c, op, arg, rest, v); s.Running? ==> Has(img, c, op, arg, s.c, sh)
  {
    hide Unwind, Has, Raised, Finish, ApplyUnary, ApplyBump, ApplyBinary;
    match op
    case Un(u) => sh := FinishShape(img, c, op, arg, rest, ApplyUnary(u, v));
    case Inc => sh := FinishShape(img, c, op, arg, rest, ApplyBump(true, v));
    case Dec => sh := FinishShape(img, c, op, arg, rest, ApplyBump(false, v));
    case Bin(b) =>
      sh := Leaves;
      if rest != [] {
        sh := FinishShape(img, c, op, arg, rest[..|rest| - 1], ApplyBinary(b, rest[|rest| - 1], v));
      }
    case ThrowOp => sh := RaisedShape(img, c, op, arg, c.(stack := rest), v, TopStep(c, op, arg, rest, v));
    case JumpIfTrue => sh := JumpShape(img, c, op, arg, rest, v);
    case JumpIfFalse => sh := JumpShape(img, c, op, arg, rest, v);
    case _ =>
      sh := Continues(false);
      PlainShape(img, c, op, arg, rest, v);
  }

  lemma JumpShape(img: Image, c: Config, op: Opcode, arg: nat, rest: seq<Value>, v: Value) returns (sh: Shape)
    requires c.frames != [] && c.stack == rest + [v] && op in {JumpIfTrue, JumpIfFalse}
    ensures var s := TopStep(c, op, arg, rest, v); s.Running? ==> Has(img, c, op, arg, s.c, sh)
  {
    sh := Continues(if op == JumpIfTrue then Truthy(v) else !Truthy(v));
  }

  lemma PlainShape(img: Image, c: Config, op: Opcode, arg: nat, rest: seq<Value>, v: Value)
    requires c.frames != [] && c.stack == rest + [v] && op in {Pop, Dup, StoreLocal, StoreGlobal}
    ensures var s := TopStep(c, op, arg, rest, v); s.Running? ==> Has(img, c, op, arg, s.c, Continues(false))
  {
  }

  lemma PushShape(img: Image, c: Config, code: Code, op: Opcode, arg: nat) returns (sh: Shape)
    requires c.frames != [] && op != CallFn && op != Ret && !UsesTop(op)
    ensures var s := PushStep(img, c, code, op, arg); s.Running? ==> Has(img, c, op, arg, s.c, sh)
  {
    hide Unwind;
    sh := Continues(op == Jump);
    if op in {PushTry, PopTry, Catch} {
      TryShape(img, c, code, op, arg);
    } else if op == LoadGlobal && arg !in c.globals {
      sh := RaisedShape(img, c, op, arg, c, Unbound(img.Text(arg)), PushStep(img, c, code, op, arg));
    }
  }

  lemma TryShape(img: Image, c: Config, code: Code, op: Opcode, arg: nat)
    requires c.frames != [] && op in {PushTry, PopTry, Catch}
    ensures var s := PushStep(img, c, code, op, arg); s.Running? ==> Has(img, c, op, arg, s.c, Continues(false))
  {
  }

  lemma ExecuteShape(img: Image, c: Config, code: Code, op: Opcode, arg: nat) returns (sh: Shape)
    requires c.frames != []
    ensures var s := Execute(img, c, code, op, arg); s.Running? ==> Has(img, c, op, arg, s.c, sh)
  {
    hide CallStep, TopStep, PushStep, Has, Unwind;
    if op == CallFn {
      sh := CallShape(img, c, arg);
    } else if op == Ret {
      sh := Leaves;
      RetShape(img, c, arg);
    } else if UsesTop(op) {
      sh := Leaves;
      if c.stack != [] {
        sh := TopShape(img, c, op, arg, c.stack[..|c.stack| - 1], c.stack[|c.stack| - 1]);
      }
    } else {
      sh := PushShape(img, c, code, op, arg);
    }
  }

  /** If the error is caught, it is set. */
  lemma RaisedIsSet(img: Image, c: Config)
    requires RaisesNow(img, c)
    ensures var s := Step(img, Running(c)); s.Running? ==> s.c.error.Some?
  {
    hide Execute, Raises;
    var f := Current(c);
    var code := CodeOf(img, f).value;
    var sh := ExecuteShape(img, c, code, code.instrs[f.ip].op, code.instrs[f.ip].arg);
  }

  lemma RetShape(img: Image, c: Config, arg: nat)
    requires c.frames != []
    ensures var s := RetStep(c); s.Running? ==> Has(img, c, Ret, arg, s.c, Leaves)
  {
  }
}
