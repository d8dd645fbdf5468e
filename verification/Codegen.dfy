/** The code of a tree, with symbolic labels.  Labels and constants are
    numbered in the order in which a single left-to-right pass asks for them: every
    generator takes the first free label `l` and constant `k`. */
module Codegen {
  import opened Syntax
  import opened Assembly

  /** Constants the fragment needs in the pool. */
  datatype Constant = IntConst(n: int) | FunConst(fn: nat)

  /** The targets of `break` and `continue`, and how many `try` bodies inside the loop
      enclose the current statement. */
  datatype Loop = Loop(breakTo: nat, continueTo: nat, tries: nat)

  // ----- how many labels, which constants -----

  function ExprLabels(e: Expr): nat {
    match e
    case Const(_) => 0
    case Var(_) => 0
    case Bump(_, _) => 0
    case Assign(_, e1) => ExprLabels(e1)
    case OpAssign(_, _, e1) => ExprLabels(e1)
    case Unary(_, e1) => ExprLabels(e1)
    case Binary(_, l, r) => ExprLabels(l) + ExprLabels(r)
    case Logic(_, l, r) => ExprLabels(l) + 1 + ExprLabels(r)
    case Call(f, args) => ExprLabels(f) + ArgsLabels(args)
  }

  function ArgsLabels(es: List<Expr>): nat {
    match es
    case Nil => 0
    case Cons(e, rest) => ExprLabels(e) + ArgsLabels(rest)
  }

  function OptLabels(e: Option<Expr>): nat { if e.Some? then ExprLabels(e.value) else 0 }

  function ExprConsts(e: Expr): seq<Constant> {
    match e
    case Const(lit) => if lit.IntLit? then [IntConst(lit.n)] else []
    case Var(_) => []
    case Bump(_, _) => []
    case Assign(_, e1) => ExprConsts(e1)
    case OpAssign(_, _, e1) => ExprConsts(e1)
    case Unary(_, e1) => ExprConsts(e1)
    case Binary(_, l, r) => ExprConsts(l) + ExprConsts(r)
    case Logic(_, l, r) => ExprConsts(l) + ExprConsts(r)
    case Call(f, args) => ExprConsts(f) + ArgsConsts(args)
  }

  function ArgsConsts(es: List<Expr>): seq<Constant> {
    match es
    case Nil => []
    case Cons(e, rest) => ExprConsts(e) + ArgsConsts(rest)
  }

  function OptConsts(e: Option<Expr>): seq<Constant> { if e.Some? then ExprConsts(e.value) else [] }

  function DeclsLabels(ds: List<Decl>): nat {
    match ds
    case Nil => 0
    case Cons(d, rest) => OptLabels(d.init) + DeclsLabels(rest)
  }

  function DeclsConsts(ds: List<Decl>): seq<Constant> {
    match ds
    case Nil => []
    case Cons(d, rest) => OptConsts(d.init) + DeclsConsts(rest)
  }

  function StmtLabels(s: Stmt): nat {
    match s
    case ExprStmt(e) => ExprLabels(e)
    case Let(ds) => DeclsLabels(ds)
    case If(c, t, els) => 2 + ExprLabels(c) + BlockLabels(t) + ElseLabels(els)
    case While(c, body) => 2 + ExprLabels(c) + BlockLabels(body)
    case For(init, c, step, body) =>
      4 + InitLabels(init) + OptLabels(c) + OptLabels(step) + BlockLabels(body)
    case Break => 0
    case Continue => 0
    case Return(v) => OptLabels(v)
    case Throw(e) => ExprLabels(e)
    case Try(body, _, handler) => 2 + BlockLabels(body) + BlockLabels(handler)
    case Fun(_, _) => 0
  }

  function ElseLabels(els: Else): nat {
    match els
    case NoElse => 0
    case ElseIf(s) => StmtLabels(s)
    case ElseBlock(body) => BlockLabels(body)
  }

  function BlockLabels(ss: List<Stmt>): nat {
    match ss
    case Nil => 0
    case Cons(s, rest) => StmtLabels(s) + BlockLabels(rest)
  }

  function StmtConsts(s: Stmt): seq<Constant> {
    match s
    case ExprStmt(e) => ExprConsts(e)
    case Let(ds) => DeclsConsts(ds)
    case If(c, t, els) => ExprConsts(c) + BlockConsts(t) + ElseConsts(els)
    case While(c, body) => ExprConsts(c) + BlockConsts(body)
    case For(init, c, step, body) =>
      InitConsts(init) + OptConsts(c) + OptConsts(step) + BlockConsts(body)
    case Break => []
    case Continue => []
    case Return(v) => OptConsts(v)
    case Throw(e) => ExprConsts(e)
    case Try(body, _, handler) => BlockConsts(body) + BlockConsts(handler)
    case Fun(i, _) => [FunConst(i)]
  }

  function ElseConsts(els: Else): seq<Constant> {
    match els
    case NoElse => []
    case ElseIf(s) => StmtConsts(s)
    case ElseBlock(body) => BlockConsts(body)
  }

  function BlockConsts(ss: List<Stmt>): seq<Constant> {
    match ss
    case Nil => []
    case Cons(s, rest) => StmtConsts(s) + BlockConsts(rest)
  }

  // ----- expressions -----

  function Load(x: Name, sc: Scope): Item {
    match sc.Resolve(x)
    case Some(slot) => Op(LoadLocal, slot)
    case None => Op(LoadGlobal, x)
  }

  function Store(x: Name, sc: Scope): Item {
    match sc.Resolve(x)
    case Some(slot) => Op(StoreLocal, slot)
    case None => Op(StoreGlobal, x)
  }

  function GenLiteral(lit: Literal, k: nat): Item {
    match lit
    case IntLit(_) => Op(LoadConst, k)
    case StrLit(id) => Op(ConstString, id)
    case TrueLit => Op(ConstTrue, 0)
    case FalseLit => Op(ConstFalse, 0)
    case NullLit => Op(ConstNull, 0)
  }

  /** `&&` and `||`: the left value stays as the result when the right operand is
      skipped. */
  function LogicCode(left: seq<Item>, isAnd: bool, end: nat, right: seq<Item>): seq<Item> {
    left + [Op(Dup, 0), Ref(if isAnd then JumpIfFalse else JumpIfTrue, end), Op(Pop, 0)] + right + [Mark(end)]
  }

  function GenExpr(e: Expr, sc: Scope, l: nat, k: nat): seq<Item>
    decreases e
  {
    match e
    case Const(lit) => [GenLiteral(lit, k)]
    case Var(x) => [Load(x, sc)]
    case Assign(x, e1) => GenExpr(e1, sc, l, k) + [Store(x, sc)]
    case OpAssign(x, op, e1) => [Load(x, sc)] + GenExpr(e1, sc, l, k) + [Op(Bin(op), 0), Store(x, sc)]
    case Bump(x, up) =>
      [Load(x, sc), Op(Dup, 0), Op(if up then Inc else Dec, 0), Store(x, sc), Op(Pop, 0)]
    case Unary(op, e1) => GenExpr(e1, sc, l, k) + [Op(Un(op), 0)]
    case Binary(op, a, b) =>
      GenExpr(a, sc, l, k) + GenExpr(b, sc, l + ExprLabels(a), k + |ExprConsts(a)|) + [Op(Bin(op), 0)]
    case Logic(isAnd, a, b) =>
      var end := l + ExprLabels(a);
      LogicCode(GenExpr(a, sc, l, k), isAnd, end, GenExpr(b, sc, end + 1, k + |ExprConsts(a)|))
    case Call(f, args) =>
      GenExpr(f, sc, l, k) + GenArgs(args, sc, l + ExprLabels(f), k + |ExprConsts(f)|)
      + [Op(CallFn, Length(args))]
  }

  function GenArgs(es: List<Expr>, sc: Scope, l: nat, k: nat): seq<Item>
    decreases es
  {
    match es
    case Nil => []
    case Cons(e, rest) =>
      GenExpr(e, sc, l, k) + GenArgs(rest, sc, l + ExprLabels(e), k + |ExprConsts(e)|)
  }

  // ----- statements -----

  /** Binds the value on top of the stack to a new variable and pops it. */
  function GenDeclare(x: Name, sc: Scope): seq<Item> {
    match sc
    case Global => [Op(DeclareGlobal, x), Op(StoreGlobal, x), Op(Pop, 0)]
    case Local(ns) => [Op(StoreLocal, |ns|), Op(Pop, 0)]
  }

  function GenOpt(e: Option<Expr>, sc: Scope, l: nat, k: nat): seq<Item> {
    if e.Some? then GenExpr(e.value, sc, l, k) else [Op(ConstNull, 0)]
  }

  function GenDecls(ds: List<Decl>, sc: Scope, l: nat, k: nat): seq<Item>
    decreases ds
  {
    match ds
    case Nil => []
    case Cons(d, rest) =>
      GenOpt(d.init, sc, l, k) + GenDeclare(d.name, sc)
      + GenDecls(rest, sc.Declare(d.name), l + OptLabels(d.init), k + |OptConsts(d.init)|)
  }

  function PopTries(n: nat): seq<Item> { seq(n, _ => Op(PopTry, 0)) }

  function GenTest(e: Option<Expr>, sc: Scope, l: nat, k: nat, end: nat): seq<Item> {
    if e.Some? then GenExpr(e.value, sc, l, k) + [Ref(JumpIfFalse, end)] else []
  }

  function GenStep(e: Option<Expr>, sc: Scope, l: nat, k: nat): seq<Item> {
    if e.Some? then GenExpr(e.value, sc, l, k) + [Op(Pop, 0)] else []
  }

  function GenCatch(name: Option<Name>, sc: Scope): seq<Item> {
    if name.Some? then GenDeclare(name.value, sc) else [Op(Pop, 0)]
  }

  function Deeper(lp: Option<Loop>): Option<Loop> {
    if lp.Some? then Some(lp.value.(tries := lp.value.tries + 1)) else None
  }

  /** Labels: `l` the else branch, `l + 1` the end. */
  function IfCode(cond: seq<Item>, thn: seq<Item>, els: seq<Item>, l: nat): seq<Item> {
    cond + [Ref(JumpIfFalse, l)] + thn + [Ref(Jump, l + 1), Mark(l)] + els + [Mark(l + 1)]
  }

  /** Labels: `l` the start, `l + 1` the end. */
  function WhileCode(cond: seq<Item>, body: seq<Item>, l: nat): seq<Item> {
    [Mark(l)] + cond + [Ref(JumpIfFalse, l + 1)] + body + [Ref(Jump, l), Mark(l + 1)]
  }

  /** Labels: `l` the start, `l + 1` the end, `l + 2` the step, `l + 3` the body. */
  function ForCode(test: seq<Item>, step: seq<Item>, body: seq<Item>, l: nat): seq<Item> {
    [Mark(l)] + test + [Ref(Jump, l + 3), Mark(l + 2)] + step + [Ref(Jump, l), Mark(l + 3)]
    + body + [Ref(Jump, l + 2), Mark(l + 1)]
  }

  /** Labels: `l` the catch clause, `l + 1` the end. */
  function TryCode(body: seq<Item>, bind: seq<Item>, handler: seq<Item>, l: nat): seq<Item> {
    [Ref(PushTry, l)] + body + [Op(PopTry, 0), Ref(Jump, l + 1), Mark(l), Op(Catch, 0)]
    + bind + handler + [Mark(l + 1)]
  }

  function InitLabels(s: Option<Stmt>): nat { if s.Some? then StmtLabels(s.value) else 0 }

  function InitConsts(s: Option<Stmt>): seq<Constant> { if s.Some? then StmtConsts(s.value) else [] }

  function AfterInit(s: Option<Stmt>, sc: Scope): Scope { if s.Some? then After(s.value, sc) else sc }

  function LeaveTo(lp: Option<Loop>, target: nat): seq<Item> {
    if lp.Some? then PopTries(lp.value.tries) + [Ref(Jump, target)] else []
  }

  function GenStmt(s: Stmt, sc: Scope, lp: Option<Loop>, l: nat, k: nat): seq<Item>
    decreases s, 0
  {
    match s
    case ExprStmt(e) => GenExpr(e, sc, l, k) + [Op(Pop, 0)]
    case Let(ds) => GenDecls(ds, sc, l, k)
    case If(c, t, els) =>
      var l1, k1 := l + 2 + ExprLabels(c), k + |ExprConsts(c)|;
      IfCode(GenExpr(c, sc, l + 2, k), GenBlock(t, sc, lp, l1, k1),
             GenElse(els, sc, lp, l1 + BlockLabels(t), k1 + |BlockConsts(t)|), l)
    case While(c, body) =>
      WhileCode(GenExpr(c, sc, l + 2, k),
                GenBlock(body, sc, Some(Loop(l + 1, l, 0)), l + 2 + ExprLabels(c), k + |ExprConsts(c)|), l)
    case For(init, c, step, body) =>
      var sc1 := AfterInit(init, sc);
      var l1, k1 := l + 4 + InitLabels(init), k + |InitConsts(init)|;
      var l2, k2 := l1 + OptLabels(c), k1 + |OptConsts(c)|;
      var l3, k3 := l2 + OptLabels(step), k2 + |OptConsts(step)|;
      (if init.Some? then GenStmt(init.value, sc, lp, l + 4, k) else [])
      + ForCode(GenTest(c, sc1, l1, k1, l + 1), GenStep(step, sc1, l2, k2),
                GenBlock(body, sc1, Some(Loop(l + 1, l + 2, 0)), l3, k3), l)
    case Break => LeaveTo(lp, if lp.Some? then lp.value.breakTo else 0)
    case Continue => LeaveTo(lp, if lp.Some? then lp.value.continueTo else 0)
    case Return(v) => GenOpt(v, sc, l, k) + [Op(Ret, 0)]
    case Throw(e) => GenExpr(e, sc, l, k) + [Op(ThrowOp, 0)]
    case Try(body, name, handler) =>
      TryCode(GenBlock(body, sc, Deeper(lp), l + 2, k), GenCatch(name, sc),
              GenBlock(handler, CatchScope(name, sc), lp, l + 2 + BlockLabels(body), k + |BlockConsts(body)|), l)
    case Fun(_, d) => [Op(LoadConst, k)] + GenDeclare(d.name, sc)
  }

  function GenElse(els: Else, sc: Scope, lp: Option<Loop>, l: nat, k: nat): seq<Item>
    decreases els, 0
  {
    match els
    case NoElse => []
    case ElseIf(s) => GenStmt(s, sc, lp, l, k)
    case ElseBlock(body) => GenBlock(body, sc, lp, l, k)
  }

  function GenBlock(ss: List<Stmt>, sc: Scope, lp: Option<Loop>, l: nat, k: nat): seq<Item>
    decreases ss, 0
  {
    match ss
    case Nil => []
    case Cons(s, rest) =>
      GenStmt(s, sc, lp, l, k)
      + GenBlock(rest, After(s, sc), lp, l + StmtLabels(s), k + |StmtConsts(s)|)
  }

  // ----- functions and modules -----

  /** Label 0 ends the (empty) list of optional parameters. */
  function GenFun(d: FunDecl): seq<Item> {
    [Mark(0), Op(AllocateLocals, BodySlots(d) - |d.params|)]
    + GenBlock(d.body, Local(d.params), None, 1, 0)
    + [Op(ConstNull, 0), Op(Ret, 0)]
  }

  function GenModule(body: List<Stmt>): seq<Item> {
    GenBlock(body, Global, None, 0, 0) + [Op(Halt, 0)]
  }
}
