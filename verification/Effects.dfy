/** How instructions move the operand stack, and the stack size recorded with code. */
module Effects {
  import opened Syntax
  import opened Assembly

  function StackEffect(op: Opcode, arg: nat): int {
    match op
    case LoadConst | ConstTrue | ConstFalse | ConstNull | ConstString => 1
    case Jump | Dup | LoadLocal | LoadGlobal | Catch => 1
    case Bin(_) => -1
    case Pop | Ret | JumpIfTrue | JumpIfFalse | ThrowOp => -1
    case AllocateLocals => arg
    case CallFn => 0 - arg as int
    case Halt | Un(_) | StoreLocal | DeclareGlobal | StoreGlobal | ApplyDefaultArg => 0
    case PushTry | PopTry | Inc | Dec => 0
  }

  /** The effect of an encoded instruction. */
  function WordEffect(w: nat): int {
    match OpOf(OpField(w))
    case None => 0
    case Some(op) => StackEffect(op, ArgField(w))
  }

  /** The height after the first `n` words, read in a straight line. */
  function LineHeight(code: seq<nat>, start: int, n: nat): int
    requires n <= |code|
  {
    if n == 0 then start else LineHeight(code, start, n - 1) + WordEffect(code[n - 1])
  }

  /** The greatest height on that line. */
  function LineMax(code: seq<nat>, start: int, n: nat): (m: int)
    requires n <= |code|
    ensures forall i :: 0 <= i <= n ==> LineHeight(code, start, i) <= m
  {
    if n == 0 then start
    else
      var m, h := LineMax(code, start, n - 1), LineHeight(code, start, n);
      if h > m then h else m
  }
}
