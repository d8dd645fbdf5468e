/** The structured programs of the modelled fragment: what the one-pass compiler
    reads, as trees.  Names and string literals are interned ids; a function declaration
    carries its number in the order of appearance. */
module Syntax {

  datatype Option<+T> = None | Some(value: T)

  datatype List<+T> = Nil | Cons(head: T, tail: List<T>)

  function Length<T>(xs: List<T>): nat {
    match xs
    case Nil => 0
    case Cons(_, tail) => 1 + Length(tail)
  }

  type Name = nat

  datatype UnOp = Neg | Not | BitNot

  datatype BinOp =
    | Add | Sub | Mul | Div | Mod | Exp
    | Eq | Ne | Lt | Le | Gt | Ge
    | BitOr | BitXor | BitAnd

  datatype Literal = IntLit(n: int) | StrLit(id: Name) | TrueLit | FalseLit | NullLit

  datatype Expr =
    | Const(lit: Literal)
    | Var(x: Name)
    | Assign(x: Name, e: Expr)
    | OpAssign(x: Name, op: BinOp, e: Expr)
    | Bump(x: Name, up: bool)
    | Unary(uop: UnOp, e: Expr)
    | Binary(op: BinOp, l: Expr, r: Expr)
    | Logic(isAnd: bool, l: Expr, r: Expr)
    | Call(f: Expr, args: List<Expr>)

  datatype Decl = Decl(name: Name, init: Option<Expr>)

  datatype Stmt =
    | ExprStmt(e: Expr)
    | Let(decls: List<Decl>)
    | If(cond: Expr, thn: List<Stmt>, els: Else)
    | While(cond: Expr, body: List<Stmt>)
    | For(init: Option<Stmt>, test: Option<Expr>, step: Option<Expr>, body: List<Stmt>)
    | Break
    | Continue
    | Return(value: Option<Expr>)
    | Throw(e: Expr)
    | Try(body: List<Stmt>, name: Option<Name>, handler: List<Stmt>)
    | Fun(index: nat, decl: FunDecl)

  /** `else if` compiles as a nested statement, `else { }` as more statements of the
      enclosing scope. */
  datatype Else = NoElse | ElseIf(s: Stmt) | ElseBlock(body: List<Stmt>)

  datatype FunDecl = FunDecl(name: Name, params: seq<Name>, body: List<Stmt>)

  /** Where names are looked up: at module level everything is a global; inside a
      function `names[i]` is the binding that lives in local slot `i`. */
  datatype Scope = Global | Local(names: seq<Name>) {

    /** The slot of the innermost visible binding of `x`. */
    function Resolve(x: Name): (slot: Option<nat>)
      ensures slot.Some? ==> Local? && slot.value < |names| && names[slot.value] == x
    {
      match this
      case Global => None
      case Local(ns) => LastIndex(ns, x)
    }

    function Declare(x: Name): Scope {
      match this
      case Global => Global
      case Local(ns) => Local(ns + [x])
    }

    function Size(): nat {
      if Local? then |names| else 0
    }
  }

  function LastIndex(ns: seq<Name>, x: Name): (i: Option<nat>)
    ensures i.Some? ==> i.value < |ns| && ns[i.value] == x
    ensures i.Some? ==> forall j :: i.value < j < |ns| ==> ns[j] != x
    ensures i.None? ==> x !in ns
  {
    if ns == [] then None
    else if ns[|ns| - 1] == x then Some(|ns| - 1)
    else LastIndex(ns[..|ns| - 1], x)
  }

  // ----- how declarations extend the scope -----

  function AfterDecls(ds: List<Decl>, sc: Scope): Scope {
    match ds
    case Nil => sc
    case Cons(d, rest) => AfterDecls(rest, sc.Declare(d.name))
  }

  /** The scope after a statement.  Blocks are closed again, except that an `else`
      block shares the scope of the `if` statement it belongs to. */
  function After(s: Stmt, sc: Scope): Scope {
    match s
    case Let(ds) => AfterDecls(ds, sc)
    case If(_, _, els) => AfterElse(els, sc)
    case _ => sc
  }

  function AfterElse(els: Else, sc: Scope): Scope {
    match els
    case NoElse => sc
    case ElseIf(s) => After(s, sc)
    case ElseBlock(body) => AfterBlock(body, sc)
  }

  function AfterBlock(ss: List<Stmt>, sc: Scope): Scope {
    match ss
    case Nil => sc
    case Cons(s, rest) => AfterBlock(rest, After(s, sc))
  }

  // ----- the most local slots in use at once -----

  function Max(a: nat, b: nat): nat { if a < b then b else a }

  function Peak(s: Stmt, sc: Scope): (p: nat)
    ensures p >= sc.Size() && p >= After(s, sc).Size()
    decreases s, 0
  {
    match s
    case Let(ds) => AfterDeclsGrows(ds, sc); AfterDecls(ds, sc).Size()
    case If(_, thn, els) => Max(PeakBlock(thn, sc), PeakElse(els, sc))
    case While(_, body) => PeakBlock(body, sc)
    case For(init, _, _, body) =>
      (match init
       case None => PeakBlock(body, sc)
       case Some(i) => Max(Peak(i, sc), PeakBlock(body, After(i, sc))))
    case Try(body, name, handler) =>
      Max(PeakBlock(body, sc), PeakBlock(handler, CatchScope(name, sc)))
    case _ => sc.Size()
  }

  function PeakElse(els: Else, sc: Scope): (p: nat)
    ensures p >= sc.Size() && p >= AfterElse(els, sc).Size()
    decreases els, 0
  {
    match els
    case NoElse => sc.Size()
    case ElseIf(s) => Peak(s, sc)
    case ElseBlock(body) => PeakBlock(body, sc)
  }

  function PeakBlock(ss: List<Stmt>, sc: Scope): (p: nat)
    ensures p >= sc.Size() && p >= AfterBlock(ss, sc).Size()
    decreases ss, 0
  {
    match ss
    case Nil => sc.Size()
    case Cons(s, rest) => Max(Peak(s, sc), PeakBlock(rest, After(s, sc)))
  }

  function CatchScope(name: Option<Name>, sc: Scope): (r: Scope)
    ensures r.Size() >= sc.Size()
  {
    match name
    case None => sc
    case Some(x) => sc.Declare(x)
  }

  /** The local slots a function needs. */
  function BodySlots(d: FunDecl): (n: nat)
    ensures n >= |d.params|
  {
    PeakBlock(d.body, Local(d.params))
  }

  lemma AfterDeclsGrows(ds: List<Decl>, sc: Scope)
    ensures AfterDecls(ds, sc).Size() >= sc.Size()
  {
  }

  // ----- static checks the compiler makes -----

  /** `break` and `continue` need a loop, `return` a function; the fragment has
      function declarations at module level only. */
  predicate WellPlaced(s: Stmt, inFun: bool, inLoop: bool)
    decreases s, 0
  {
    match s
    case Break | Continue => inLoop
    case Return(_) => inFun
    case If(_, thn, els) => BlockWellPlaced(thn, inFun, inLoop) && ElseWellPlaced(els, inFun, inLoop)
    case While(_, body) => BlockWellPlaced(body, inFun, true)
    case For(init, _, _, body) =>
      (init.Some? ==> WellPlaced(init.value, inFun, inLoop)) && BlockWellPlaced(body, inFun, true)
    case Try(body, _, handler) => BlockWellPlaced(body, inFun, inLoop) && BlockWellPlaced(handler, inFun, inLoop)
    case Fun(_, d) => !inFun && BlockWellPlaced(d.body, true, false)
    case _ => true
  }

  predicate ElseWellPlaced(els: Else, inFun: bool, inLoop: bool)
    decreases els, 0
  {
    match els
    case NoElse => true
    case ElseIf(s) => WellPlaced(s, inFun, inLoop)
    case ElseBlock(body) => BlockWellPlaced(body, inFun, inLoop)
  }

  predicate BlockWellPlaced(ss: List<Stmt>, inFun: bool, inLoop: bool)
    decreases ss, 0
  {
    match ss
    case Nil => true
    case Cons(s, rest) => WellPlaced(s, inFun, inLoop) && BlockWellPlaced(rest, inFun, inLoop)
  }

  // ----- function declarations, numbered in the order in which they appear -----

  function StmtFuns(s: Stmt): seq<FunDecl> {
    match s
    case If(_, t, els) => BlockFuns(t) + ElseFuns(els)
    case While(_, body) => BlockFuns(body)
    case For(init, _, _, body) => (if init.Some? then StmtFuns(init.value) else []) + BlockFuns(body)
    case Try(body, _, handler) => BlockFuns(body) + BlockFuns(handler)
    case Fun(_, d) => [d]
    case _ => []
  }

  function ElseFuns(els: Else): seq<FunDecl> {
    match els
    case NoElse => []
    case ElseIf(s) => StmtFuns(s)
    case ElseBlock(body) => BlockFuns(body)
  }

  function BlockFuns(ss: List<Stmt>): seq<FunDecl> {
    match ss
    case Nil => []
    case Cons(s, rest) => StmtFuns(s) + BlockFuns(rest)
  }

  /** Every declaration is where its index says. */
  predicate Linked(s: Stmt, funs: seq<FunDecl>)
    decreases s, 0
  {
    match s
    case If(_, t, els) => BlockLinked(t, funs) && ElseLinked(els, funs)
    case While(_, body) => BlockLinked(body, funs)
    case For(init, _, _, body) => (init.Some? ==> Linked(init.value, funs)) && BlockLinked(body, funs)
    case Try(body, _, handler) => BlockLinked(body, funs) && BlockLinked(handler, funs)
    case Fun(i, d) => i < |funs| && funs[i] == d
    case _ => true
  }

  predicate ElseLinked(els: Else, funs: seq<FunDecl>)
    decreases els, 0
  {
    match els
    case NoElse => true
    case ElseIf(s) => Linked(s, funs)
    case ElseBlock(body) => BlockLinked(body, funs)
  }

  predicate BlockLinked(ss: List<Stmt>, funs: seq<FunDecl>)
    decreases ss, 0
  {
    match ss
    case Nil => true
    case Cons(s, rest) => Linked(s, funs) && BlockLinked(rest, funs)
  }
}
