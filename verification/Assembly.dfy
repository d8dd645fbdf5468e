/** Instructions, their 64-bit encoding, and label-based code with its two-pass
    assembly into absolute addresses. */
module Assembly {
  import opened Syntax

  datatype Opcode =
    | Halt | LoadConst | ConstString | ConstTrue | ConstFalse | ConstNull
    | Bin(bop: BinOp) | Un(uop: UnOp) | Inc | Dec
    | Jump | JumpIfTrue | JumpIfFalse | CallFn | Ret
    | Pop | Dup | LoadLocal | StoreLocal | LoadGlobal | DeclareGlobal | StoreGlobal
    | AllocateLocals | ApplyDefaultArg | ThrowOp | PushTry | PopTry | Catch

  datatype Instr = Instr(op: Opcode, arg: nat) | Instr2(op: Opcode, arg1: nat, arg2: nat)

  /** The position of an opcode in the list that numbers them. */
  function OpNum(op: Opcode): (n: nat)
    ensures n < 256
  {
    match op
    case Halt => 0
    case LoadConst => 1
    case ConstString => 2
    case ConstTrue => 3
    case ConstFalse => 4
    case ConstNull => 5
    case Bin(Add) => 6
    case Bin(Sub) => 7
    case Bin(Mul) => 8
    case Bin(Div) => 9
    case Bin(Mod) => 10
    case Bin(Exp) => 11
    case Jump => 12
    case JumpIfTrue => 13
    case JumpIfFalse => 14
    case CallFn => 15
    case Ret => 16
    case Pop => 17
    case LoadLocal => 18
    case StoreLocal => 19
    case LoadGlobal => 20
    case DeclareGlobal => 21
    case StoreGlobal => 22
    case Bin(Eq) => 31
    case Bin(Ne) => 32
    case Bin(Lt) => 33
    case Bin(Le) => 34
    case Bin(Gt) => 35
    case Bin(Ge) => 36
    case Bin(BitAnd) => 37
    case Bin(BitOr) => 38
    case Bin(BitXor) => 39
    case Un(BitNot) => 40
    case Un(Not) => 41
    case Un(Neg) => 42
    case Dup => 43
    case AllocateLocals => 45
    case ApplyDefaultArg => 54
    case ThrowOp => 55
    case PushTry => 56
    case PopTry => 57
    case Catch => 58
    case Inc => 59
    case Dec => 60
  }

  function OpOf(n: nat): Option<Opcode> {
    if n < 6 then
      Some(if n == 0 then Halt else if n == 1 then LoadConst else if n == 2 then ConstString
           else if n == 3 then ConstTrue else if n == 4 then ConstFalse else ConstNull)
    else if n < 12 then
      Some(Bin(if n == 6 then Add else if n == 7 then Sub else if n == 8 then Mul
               else if n == 9 then Div else if n == 10 then Mod else Exp))
    else if n < 18 then
      Some(if n == 12 then Jump else if n == 13 then JumpIfTrue else if n == 14 then JumpIfFalse
           else if n == 15 then CallFn else if n == 16 then Ret else Pop)
    else if n < 23 then
      Some(if n == 18 then LoadLocal else if n == 19 then StoreLocal else if n == 20 then LoadGlobal
           else if n == 21 then DeclareGlobal else StoreGlobal)
    else if 31 <= n < 40 then
      Some(Bin(if n == 31 then Eq else if n == 32 then Ne else if n == 33 then Lt
               else if n == 34 then Le else if n == 35 then Gt else if n == 36 then Ge
               else if n == 37 then BitAnd else if n == 38 then BitOr else BitXor))
    else if 40 <= n < 43 then
      Some(Un(if n == 40 then BitNot else if n == 41 then Not else Neg))
    else if n == 43 then Some(Dup)
    else if n == 45 then Some(AllocateLocals)
    else if 54 <= n < 61 then
      Some(if n == 54 then ApplyDefaultArg else if n == 55 then ThrowOp else if n == 56 then PushTry
           else if n == 57 then PopTry else if n == 58 then Catch else if n == 59 then Inc else Dec)
    else None
  }

  lemma OpOfOpNum(op: Opcode)
    ensures OpOf(OpNum(op)) == Some(op)
  {
  }

  // ----- one instruction word: 8 bits of opcode, then 56 or 28 + 28 bits of argument -----

  const TWO_28: nat := 0x1000_0000
  const TWO_56: nat := 0x100_0000_0000_0000

  function Word(op: nat, arg: nat): (w: nat)
    requires op < 256
  {
    op + 256 * (arg % TWO_56)
  }

  function Word2(op: nat, arg1: nat, arg2: nat): (w: nat)
    requires op < 256
  {
    op + 256 * (arg1 % TWO_28 + TWO_28 * (arg2 % TWO_28))
  }

  function OpField(w: nat): (op: nat) ensures op < 256 { w % 256 }
  function ArgField(w: nat): nat { w / 256 % TWO_56 }
  function Arg1Field(w: nat): nat { w / 256 % TWO_28 }
  function Arg2Field(w: nat): nat { w / 256 / TWO_28 % TWO_28 }

  /** Assignments to one bit-field of a word. */
  function SetArg(w: nat, v: nat): nat { Word(OpField(w), v) }
  function SetArg1(w: nat, v: nat): nat { Word2(OpField(w), v, Arg2Field(w)) }
  function SetArg2(w: nat, v: nat): nat { Word2(OpField(w), Arg1Field(w), v) }

  lemma WordFields(op: nat, arg: nat)
    requires op < 256
    ensures OpField(Word(op, arg)) == op
    ensures ArgField(Word(op, arg)) == arg % TWO_56
  {
  }

  lemma Word2Fields(op: nat, arg1: nat, arg2: nat)
    requires op < 256
    ensures OpField(Word2(op, arg1, arg2)) == op
    ensures Arg1Field(Word2(op, arg1, arg2)) == arg1 % TWO_28
    ensures Arg2Field(Word2(op, arg1, arg2)) == arg2 % TWO_28
  {
    var hi := arg1 % TWO_28 + TWO_28 * (arg2 % TWO_28);
    assert Word2(op, arg1, arg2) / 256 == hi;
    assert hi / TWO_28 == arg2 % TWO_28;
  }

  lemma SetWord(op: nat, arg: nat, v: nat)
    requires op < 256
    ensures SetArg(Word(op, arg), v) == Word(op, v)
  {
    WordFields(op, arg);
  }

  lemma SetWord2(op: nat, arg1: nat, arg2: nat, v: nat)
    requires op < 256
    ensures SetArg1(Word2(op, arg1, arg2), v) == Word2(op, v, arg2)
    ensures SetArg2(Word2(op, arg1, arg2), v) == Word2(op, arg1, v)
  {
    Word2Fields(op, arg1, arg2);
  }

  function Encode(i: Instr): nat {
    match i
    case Instr(op, arg) => Word(OpNum(op), arg)
    case Instr2(op, a, b) => Word2(OpNum(op), a, b)
  }

  /** What the dispatch loop makes of a word; only one opcode has two arguments. */
  function Decode(w: nat): Option<Instr> {
    match OpOf(OpField(w))
    case None => None
    case Some(ApplyDefaultArg) => Some(Instr2(ApplyDefaultArg, Arg1Field(w), Arg2Field(w)))
    case Some(op) => Some(Instr(op, ArgField(w)))
  }

  predicate FitsWord(i: Instr) {
    match i
    case Instr(op, arg) => op != ApplyDefaultArg && arg < TWO_56
    case Instr2(op, a, b) => op == ApplyDefaultArg && a < TWO_28 && b < TWO_28
  }

  lemma DecodeEncode(i: Instr)
    requires FitsWord(i)
    ensures Decode(Encode(i)) == Some(i)
  {
    OpOfOpNum(i.op);
    match i
    case Instr(op, arg) => WordFields(OpNum(op), arg);
    case Instr2(op, a, b) => Word2Fields(OpNum(op), a, b);
  }

  // ----- code with labels -----

  /** `Ref2` is a two-argument instruction whose argument `argno` is the label. */
  datatype Item =
    | Op(op: Opcode, arg: nat)
    | Op2(op: Opcode, arg1: nat, arg2: nat)
    | Ref(op: Opcode, lab: nat)
    | Ref2(op: Opcode, argno: nat, lab: nat, other: nat)
    | Mark(lab: nat)

  /** The address of the `i`th item: how many instructions come before it. */
  function Pos(items: seq<Item>, i: nat): (p: nat)
    requires i <= |items|
    ensures p <= i
  {
    if i == 0 then 0 else Pos(items, i - 1) + if items[i - 1].Mark? then 0 else 1
  }

  /** Where a label is marked. */
  function MarkIndex(items: seq<Item>, l: nat): (r: Option<nat>)
    ensures r.Some? ==> r.value < |items| && items[r.value] == Mark(l)
    ensures r.Some? ==> forall j :: r.value < j < |items| ==> items[j] != Mark(l)
    ensures r.None? ==> Mark(l) !in items
  {
    if items == [] then None
    else if items[|items| - 1] == Mark(l) then Some(|items| - 1)
    else MarkIndex(items[..|items| - 1], l)
  }

  /** First pass: the address of a label; a label never marked counts as 0. */
  function Addr(items: seq<Item>, l: nat): nat {
    match MarkIndex(items, l)
    case None => 0
    case Some(j) => Pos(items, j)
  }

  function ResolveItem(it: Item, items: seq<Item>): Instr
    requires !it.Mark?
  {
    match it
    case Op(op, arg) => Instr(op, arg)
    case Op2(op, a, b) => Instr2(op, a, b)
    case Ref(op, l) => Instr(op, Addr(items, l))
    case Ref2(op, argno, l, other) =>
      if argno == 0 then Instr2(op, Addr(items, l), other) else Instr2(op, other, Addr(items, l))
  }

  /** Second pass, over the first `n` items. */
  function EmitUpTo(items: seq<Item>, n: nat): (code: seq<Instr>)
    requires n <= |items|
    ensures |code| == Pos(items, n)
  {
    if n == 0 then []
    else EmitUpTo(items, n - 1) + if items[n - 1].Mark? then [] else [ResolveItem(items[n - 1], items)]
  }

  function Assemble(items: seq<Item>): seq<Instr> { EmitUpTo(items, |items|) }

  lemma {:induction false} EmittedAt(items: seq<Item>, n: nat, i: nat)
    requires i < n <= |items| && !items[i].Mark?
    ensures Pos(items, i) < Pos(items, n)
    ensures EmitUpTo(items, n)[Pos(items, i)] == ResolveItem(items[i], items)
  {
    if i < n - 1 {
      EmittedAt(items, n - 1, i);
    }
  }

  /** The code fetched at the address of an item is that item, resolved. */
  lemma Fetch(items: seq<Item>, i: nat)
    requires i < |items| && !items[i].Mark?
    ensures Pos(items, i) < |Assemble(items)|
    ensures Assemble(items)[Pos(items, i)] == ResolveItem(items[i], items)
    ensures Pos(items, i + 1) == Pos(items, i) + 1
  {
    EmittedAt(items, |items|, i);
  }

  /** No label is marked twice. */
  ghost predicate MarkedOnce(items: seq<Item>) {
    forall i, j :: 0 <= i < j < |items| && items[i].Mark? ==> items[i] != items[j]
  }

  lemma AddrOfMark(items: seq<Item>, i: nat)
    requires MarkedOnce(items) && i < |items| && items[i].Mark?
    ensures Addr(items, items[i].lab) == Pos(items, i) == Pos(items, i + 1)
  {
    var j := MarkIndex(items, items[i].lab).value;
    assert !(i < j) && !(j < i);
  }
}
