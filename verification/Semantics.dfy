/** Direct evaluation of structured programs: no instructions, no jumps, no operand
    stack and no try stack.  Loops and calls spend fuel. */
module Semantics {
  import opened Syntax
  import opened Values
  import M = Machine

  /** The variables of the running activation by slot, the globals by name, and how many
      function objects have been allocated. */
  datatype Store = Store(locals: seq<Value>, globals: map<Name, Value>, allocs: nat)

  datatype ExprResult =
    | Val(v: Value, st: Store)
    | Err(err: Value, st: Store)
    | Stop
    | Timeout

  datatype ArgsResult =
    | Vals(vs: seq<Value>, st: Store)
    | ArgsErr(err: Value, st: Store)
    | ArgsStop
    | ArgsTimeout

  datatype StmtResult =
    | Done(st: Store)
    | Broke(st: Store)
    | Continued(st: Store)
    | Returned(v: Value, st: Store)
    | Threw(err: Value, st: Store)
    | Ended
    | OutOfFuel

  datatype Program = Program(body: List<Stmt>, funs: seq<FunDecl>, strings: seq<string>) {
    function Text(id: nat): string { if id < |strings| then strings[id] else "" }
  }

  // ----- variables -----

  function ReadLocal(st: Store, slot: nat): Value {
    if slot < |st.locals| then st.locals[slot] else NullV
  }

  function WriteLocal(st: Store, slot: nat, v: Value): Store {
    if slot < |st.locals| then st.(locals := st.locals[slot := v]) else st
  }

  function ReadVar(p: Program, x: Name, sc: Scope, st: Store): ExprResult {
    match sc.Resolve(x)
    case Some(slot) => Val(ReadLocal(st, slot), st)
    case None =>
      if x in st.globals then Val(st.globals[x], st) else Err(M.Unbound(p.Text(x)), st)
  }

  /** Assigning a global that was never declared has no effect. */
  function WriteVar(x: Name, sc: Scope, st: Store, v: Value): Store {
    match sc.Resolve(x)
    case Some(slot) => WriteLocal(st, slot, v)
    case None => if x in st.globals then st.(globals := st.globals[x := v]) else st
  }

  /** A new variable: the next slot, or a global. */
  function DeclareVar(x: Name, sc: Scope, st: Store, v: Value): Store {
    match sc
    case Global => st.(globals := st.globals[x := v])
    case Local(ns) => WriteLocal(st, |ns|, v)
  }

  function LiteralValue(p: Program, lit: Literal): Value {
    match lit
    case IntLit(n) => IntV(n)
    case StrLit(id) => StrV(p.Text(id))
    case TrueLit => BoolV(true)
    case FalseLit => BoolV(false)
    case NullLit => NullV
  }

  function FromOp(r: OpResult, st: Store): ExprResult {
    match r
    case Yield(v) => Val(v, st)
    case Raise(err) => Err(err, st)
    case Abort => Stop
  }

  // ----- calls -----

  datatype Entry = Refuse(r: ExprResult) | Body(d: FunDecl, locals: seq<Value>)

  /** What a call does before the body runs.  Extra arguments are allowed; they stay in
      the slots after the parameters. */
  function Enter(p: Program, depth: nat, callee: Value, vs: seq<Value>, st: Store): Entry {
    if !callee.FunV? then Refuse(Err(M.NotCallable(callee), st))
    else if callee.code >= |p.funs| then Refuse(Stop)
    else
      var d := p.funs[callee.code];
      if |d.params| > |vs| then Refuse(Err(M.TooFew(p.Text(d.name)), st))
      else if depth + 1 >= M.MAX_DEPTH then Refuse(Err(M.STACK_OVERFLOW, st))
      else Body(d, vs + seq(BodySlots(d) - |d.params|, _ => NullV))
  }

  /** What the caller sees of the body's result. */
  function Leave(r: StmtResult, st: Store): ExprResult {
    match r
    case Done(st1) => Val(NullV, st1.(locals := st.locals))
    case Returned(v, st1) => Val(v, st1.(locals := st.locals))
    case Threw(err, st1) => Err(err, st1.(locals := st.locals))
    case OutOfFuel => Timeout
    case Ended => Stop
    case Broke(_) => Stop
    case Continued(_) => Stop
  }

  // ----- expressions -----

  /** `depth` counts the activations, the running one included. */
  function EvalExpr(p: Program, depth: nat, fuel: nat, e: Expr, sc: Scope, st: Store): ExprResult
    decreases fuel, e, 0
  {
    match e
    case Const(lit) => Val(LiteralValue(p, lit), st)
    case Var(x) => ReadVar(p, x, sc, st)
    case Assign(x, e1) =>
      (match EvalExpr(p, depth, fuel, e1, sc, st)
       case Val(v, st1) => Val(v, WriteVar(x, sc, st1, v))
       case r => r)
    case OpAssign(x, op, e1) =>
      (match ReadVar(p, x, sc, st)
       case Val(a, _) =>
         (match EvalExpr(p, depth, fuel, e1, sc, st)
          case Val(b, st1) =>
            (match FromOp(ApplyBinary(op, a, b), st1)
             case Val(v, _) => Val(v, WriteVar(x, sc, st1, v))
             case r => r)
          case r => r)
       case r => r)
    case Bump(x, up) =>
      (match ReadVar(p, x, sc, st)
       case Val(a, _) =>
         (match FromOp(ApplyBump(up, a), st)
          case Val(v, _) => Val(a, WriteVar(x, sc, st, v))
          case r => r)
       case r => r)
    case Unary(op, e1) =>
      (match EvalExpr(p, depth, fuel, e1, sc, st)
       case Val(v, st1) => FromOp(ApplyUnary(op, v), st1)
       case r => r)
    case Binary(op, l, r) =>
      (match EvalExpr(p, depth, fuel, l, sc, st)
       case Val(a, st1) =>
         (match EvalExpr(p, depth, fuel, r, sc, st1)
          case Val(b, st2) => FromOp(ApplyBinary(op, a, b), st2)
          case r2 => r2)
       case r1 => r1)
    case Logic(isAnd, l, r) =>
      (match EvalExpr(p, depth, fuel, l, sc, st)
       case Val(a, st1) =>
         if Truthy(a) == isAnd then EvalExpr(p, depth, fuel, r, sc, st1) else Val(a, st1)
       case r1 => r1)
    case Call(f, args) =>
      (match EvalExpr(p, depth, fuel, f, sc, st)
       case Val(callee, st1) =>
         (match EvalArgs(p, depth, fuel, args, sc, st1)
          case Vals(vs, st2) =>
            (match Enter(p, depth, callee, vs, st2)
             case Refuse(r) => r
             case Body(d, locals) =>
               if fuel == 0 then Timeout
               else
                 Leave(EvalBlock(p, depth + 1, fuel - 1, d.body, Local(d.params), st2.(locals := locals)), st2))
          case ArgsErr(err, st2) => Err(err, st2)
          case ArgsStop => Stop
          case ArgsTimeout => Timeout)
       case r1 => r1)
  }

  function EvalArgs(p: Program, depth: nat, fuel: nat, es: List<Expr>, sc: Scope, st: Store): (r: ArgsResult)
    ensures r.Vals? ==> |r.vs| == Length(es)
    decreases fuel, es, 1
  {
    match es
    case Nil => Vals([], st)
    case Cons(e, rest) =>
      match EvalExpr(p, depth, fuel, e, sc, st)
      case Val(v, st1) =>
        (match EvalArgs(p, depth, fuel, rest, sc, st1)
         case Vals(vs, st2) => Vals([v] + vs, st2)
         case r => r)
      case Err(err, st1) => ArgsErr(err, st1)
      case Stop => ArgsStop
      case Timeout => ArgsTimeout
  }

  function EvalOpt(p: Program, depth: nat, fuel: nat, e: Option<Expr>, sc: Scope, st: Store): ExprResult
    decreases fuel, e, 1
  {
    if e.Some? then EvalExpr(p, depth, fuel, e.value, sc, st) else Val(NullV, st)
  }

  // ----- statements -----

  function Failed(r: ExprResult): StmtResult
    requires !r.Val?
  {
    match r
    case Err(err, st) => Threw(err, st)
    case Stop => Ended
    case Timeout => OutOfFuel
  }

  function EvalDecls(p: Program, depth: nat, fuel: nat, ds: List<Decl>, sc: Scope, st: Store): StmtResult
    decreases fuel, ds, 2
  {
    match ds
    case Nil => Done(st)
    case Cons(d, rest) =>
      var r := EvalOpt(p, depth, fuel, d.init, sc, st);
      if r.Val? then
        EvalDecls(p, depth, fuel, rest, sc.Declare(d.name), DeclareVar(d.name, sc, r.st, r.v))
      else Failed(r)
  }

  /** One `while` loop from the test of its condition on. */
  function EvalWhile(p: Program, depth: nat, fuel: nat, s: Stmt, sc: Scope, st: Store): StmtResult
    requires s.While?
    decreases fuel, s, 3
  {
    var r := EvalExpr(p, depth, fuel, s.cond, sc, st);
    if !r.Val? then Failed(r)
    else if !Truthy(r.v) then Done(r.st)
    else
      var r1 := EvalBlock(p, depth, fuel, s.body, sc, r.st);
      if r1.Done? || r1.Continued? then
        (if fuel == 0 then OutOfFuel else EvalWhile(p, depth, fuel - 1, s, sc, r1.st))
      else if r1.Broke? then Done(r1.st)
      else r1
  }

  function EvalTest(p: Program, depth: nat, fuel: nat, e: Option<Expr>, sc: Scope, st: Store): ExprResult
    decreases fuel, e, 1
  {
    if e.Some? then EvalExpr(p, depth, fuel, e.value, sc, st) else Val(BoolV(true), st)
  }

  /** One `for` loop from its test on: an absent test counts as true, and the step runs
      after the body and after `continue`. */
  function EvalFor(p: Program, depth: nat, fuel: nat, s: Stmt, sc: Scope, st: Store): StmtResult
    requires s.For?
    decreases fuel, s, 3
  {
    var r := EvalTest(p, depth, fuel, s.test, sc, st);
    if !r.Val? then Failed(r)
    else if !Truthy(r.v) then Done(r.st)
    else
      var r1 := EvalBlock(p, depth, fuel, s.body, sc, r.st);
      if r1.Done? || r1.Continued? then
        var r2 := EvalOpt(p, depth, fuel, s.step, sc, r1.st);
        if !r2.Val? then Failed(r2)
        else if fuel == 0 then OutOfFuel
        else EvalFor(p, depth, fuel - 1, s, sc, r2.st)
      else if r1.Broke? then Done(r1.st)
      else r1
  }

  function EvalStmt(p: Program, depth: nat, fuel: nat, s: Stmt, sc: Scope, st: Store): StmtResult
    decreases fuel, s, 5
  {
    match s
    case ExprStmt(e) =>
      var r := EvalExpr(p, depth, fuel, e, sc, st);
      if r.Val? then Done(r.st) else Failed(r)
    case Let(ds) => EvalDecls(p, depth, fuel, ds, sc, st)
    case If(c, t, els) =>
      var r := EvalExpr(p, depth, fuel, c, sc, st);
      if !r.Val? then Failed(r)
      else if Truthy(r.v) then EvalBlock(p, depth, fuel, t, sc, r.st)
      else EvalElse(p, depth, fuel, els, sc, r.st)
    case While(_, _) => EvalWhile(p, depth, fuel, s, sc, st)
    case For(init, _, _, _) =>
      if init.None? then EvalFor(p, depth, fuel, s, sc, st)
      else
        (match EvalStmt(p, depth, fuel, init.value, sc, st)
         case Done(st1) => EvalFor(p, depth, fuel, s, After(init.value, sc), st1)
         case r => r)
    case Break => Broke(st)
    case Continue => Continued(st)
    case Return(v) =>
      var r := EvalOpt(p, depth, fuel, v, sc, st);
      if r.Val? then Returned(r.v, r.st) else Failed(r)
    case Throw(e) =>
      var r := EvalExpr(p, depth, fuel, e, sc, st);
      if r.Val? then Threw(r.v, r.st) else Failed(r)
    case Try(body, name, handler) =>
      (match EvalBlock(p, depth, fuel, body, sc, st)
       case Threw(err, st1) =>
         var st2 := if name.Some? then DeclareVar(name.value, sc, st1, err) else st1;
         EvalBlock(p, depth, fuel, handler, CatchScope(name, sc), st2)
       case r => r)
    case Fun(i, d) =>
      Done(DeclareVar(d.name, sc, st.(allocs := st.allocs + 1), FunV(i, st.allocs)))
  }

  function EvalElse(p: Program, depth: nat, fuel: nat, els: Else, sc: Scope, st: Store): StmtResult
    decreases fuel, els, 5
  {
    match els
    case NoElse => Done(st)
    case ElseIf(s) => EvalStmt(p, depth, fuel, s, sc, st)
    case ElseBlock(body) => EvalBlock(p, depth, fuel, body, sc, st)
  }

  function EvalBlock(p: Program, depth: nat, fuel: nat, ss: List<Stmt>, sc: Scope, st: Store): StmtResult
    decreases fuel, ss, 5
  {
    match ss
    case Nil => Done(st)
    case Cons(s, rest) =>
      match EvalStmt(p, depth, fuel, s, sc, st)
      case Done(st1) => EvalBlock(p, depth, fuel, rest, After(s, sc), st1)
      case r => r
  }
}
