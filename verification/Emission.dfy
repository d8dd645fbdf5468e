/** What the compiler has produced at a point of its single pass, and what compiling one
    more expression or statement adds to it; one equation for every construct, in the
    order in which the compiler emits. */
module Emission {
  import opened Syntax
  import opened Assembly
  import opened Codegen
  import opened Effects

  /** Items emitted, labels and constants handed out. */
  datatype Emitted = Emitted(items: seq<Item>, labels: nat, consts: seq<Constant>)

  function Emit(o: Emitted, it: Item): Emitted { o.(items := o.items + [it]) }
  function NewLabel(o: Emitted): Emitted { o.(labels := o.labels + 1) }
  function NewConst(o: Emitted, k: Constant): Emitted { o.(consts := o.consts + [k]) }

  function WithExpr(o: Emitted, e: Expr, sc: Scope): Emitted {
    Emitted(o.items + GenExpr(e, sc, o.labels, |o.consts|), o.labels + ExprLabels(e), o.consts + ExprConsts(e))
  }

  function WithArgs(o: Emitted, es: List<Expr>, sc: Scope): Emitted {
    Emitted(o.items + GenArgs(es, sc, o.labels, |o.consts|), o.labels + ArgsLabels(es), o.consts + ArgsConsts(es))
  }

  function WithDecls(o: Emitted, ds: List<Decl>, sc: Scope): Emitted {
    Emitted(o.items + GenDecls(ds, sc, o.labels, |o.consts|), o.labels + DeclsLabels(ds), o.consts + DeclsConsts(ds))
  }

  function WithStmt(o: Emitted, s: Stmt, sc: Scope, lp: Option<Loop>): Emitted {
    Emitted(o.items + GenStmt(s, sc, lp, o.labels, |o.consts|), o.labels + StmtLabels(s), o.consts + StmtConsts(s))
  }

  function WithElse(o: Emitted, els: Else, sc: Scope, lp: Option<Loop>): Emitted {
    Emitted(o.items + GenElse(els, sc, lp, o.labels, |o.consts|), o.labels + ElseLabels(els), o.consts + ElseConsts(els))
  }

  function WithBlock(o: Emitted, ss: List<Stmt>, sc: Scope, lp: Option<Loop>): Emitted {
    Emitted(o.items + GenBlock(ss, sc, lp, o.labels, |o.consts|), o.labels + BlockLabels(ss), o.consts + BlockConsts(ss))
  }

  function WithDeclare(o: Emitted, x: Name, sc: Scope): Emitted {
    o.(items := o.items + GenDeclare(x, sc))
  }

  // ----- expressions -----

  lemma LiteralEmits(o: Emitted, lit: Literal, sc: Scope)
    ensures WithExpr(o, Const(lit), sc)
         == Emit(if lit.IntLit? then NewConst(o, IntConst(lit.n)) else o, GenLiteral(lit, |o.consts|))
  {
  }

  lemma VarEmits(o: Emitted, x: Name, sc: Scope)
    ensures WithExpr(o, Var(x), sc) == Emit(o, Load(x, sc))
  {
  }

  lemma AssignEmits(o: Emitted, x: Name, e: Expr, sc: Scope)
    ensures WithExpr(o, Assign(x, e), sc) == Emit(WithExpr(o, e, sc), Store(x, sc))
  {
    assert o.items + (GenExpr(e, sc, o.labels, |o.consts|) + [Store(x, sc)])
        == o.items + GenExpr(e, sc, o.labels, |o.consts|) + [Store(x, sc)];
  }

  lemma OpAssignEmits(o: Emitted, x: Name, op: BinOp, e: Expr, sc: Scope)
    ensures WithExpr(o, OpAssign(x, op, e), sc)
         == Emit(Emit(WithExpr(Emit(o, Load(x, sc)), e, sc), Op(Bin(op), 0)), Store(x, sc))
  {
    var g := GenExpr(e, sc, o.labels, |o.consts|);
    assert o.items + ([Load(x, sc)] + g + [Op(Bin(op), 0), Store(x, sc)])
        == o.items + [Load(x, sc)] + g + [Op(Bin(op), 0)] + [Store(x, sc)];
  }

  lemma BumpEmits(o: Emitted, x: Name, up: bool, sc: Scope)
    ensures WithExpr(o, Bump(x, up), sc)
         == Emit(Emit(Emit(Emit(Emit(o, Load(x, sc)), Op(Dup, 0)), Op(if up then Inc else Dec, 0)), Store(x, sc)), Op(Pop, 0))
  {
  }

  lemma UnaryEmits(o: Emitted, op: UnOp, e: Expr, sc: Scope)
    ensures WithExpr(o, Unary(op, e), sc) == Emit(WithExpr(o, e, sc), Op(Un(op), 0))
  {
    assert o.items + (GenExpr(e, sc, o.labels, |o.consts|) + [Op(Un(op), 0)])
        == o.items + GenExpr(e, sc, o.labels, |o.consts|) + [Op(Un(op), 0)];
  }

  lemma BinaryEmits(o: Emitted, op: BinOp, a: Expr, b: Expr, sc: Scope)
    ensures WithExpr(o, Binary(op, a, b), sc) == Emit(WithExpr(WithExpr(o, a, sc), b, sc), Op(Bin(op), 0))
  {
    var o1 := WithExpr(o, a, sc);
    var ga, gb := GenExpr(a, sc, o.labels, |o.consts|), GenExpr(b, sc, o1.labels, |o1.consts|);
    assert o.items + (ga + gb + [Op(Bin(op), 0)]) == o.items + ga + gb + [Op(Bin(op), 0)];
    assert o.consts + (ExprConsts(a) + ExprConsts(b)) == o.consts + ExprConsts(a) + ExprConsts(b);
  }

  /** After the left operand: the skip over the right one. */
  function LogicSkip(o: Emitted, isAnd: bool): Emitted {
    Emit(Emit(Emit(NewLabel(o), Op(Dup, 0)), Ref(if isAnd then JumpIfFalse else JumpIfTrue, o.labels)), Op(Pop, 0))
  }

  lemma LogicIs(isAnd: bool, a: Expr, b: Expr, sc: Scope, l: nat, k: nat)
    ensures var end := l + ExprLabels(a);
            GenExpr(Logic(isAnd, a, b), sc, l, k)
            == LogicCode(GenExpr(a, sc, l, k), isAnd, end, GenExpr(b, sc, end + 1, k + |ExprConsts(a)|))
    ensures ExprLabels(Logic(isAnd, a, b)) == ExprLabels(a) + 1 + ExprLabels(b)
    ensures ExprConsts(Logic(isAnd, a, b)) == ExprConsts(a) + ExprConsts(b)
  {
    hide LogicCode;
  }

  lemma LogicEmits(o: Emitted, isAnd: bool, a: Expr, b: Expr, sc: Scope)
    ensures var o1 := WithExpr(o, a, sc);
            WithExpr(o, Logic(isAnd, a, b), sc) == Emit(WithExpr(LogicSkip(o1, isAnd), b, sc), Mark(o1.labels))
  {
    hide GenExpr, ExprLabels, ExprConsts;
    LogicIs(isAnd, a, b, sc, o.labels, |o.consts|);
    var o1 := WithExpr(o, a, sc);
    var o2 := LogicSkip(o1, isAnd);
    var end := o1.labels;
    var ga, gb := GenExpr(a, sc, o.labels, |o.consts|), GenExpr(b, sc, o2.labels, |o2.consts|);
    var skip := [Op(Dup, 0), Ref(if isAnd then JumpIfFalse else JumpIfTrue, end), Op(Pop, 0)];
    assert o2.items == o.items + ga + skip;
    assert o.items + (ga + skip + gb + [Mark(end)]) == o.items + ga + skip + gb + [Mark(end)];
    assert o.consts + (ExprConsts(a) + ExprConsts(b)) == o.consts + ExprConsts(a) + ExprConsts(b);
  }

  lemma CallIs(f: Expr, args: List<Expr>, sc: Scope, l: nat, k: nat)
    ensures GenExpr(Call(f, args), sc, l, k)
         == GenExpr(f, sc, l, k) + GenArgs(args, sc, l + ExprLabels(f), k + |ExprConsts(f)|) + [Op(CallFn, Length(args))]
    ensures ExprLabels(Call(f, args)) == ExprLabels(f) + ArgsLabels(args)
    ensures ExprConsts(Call(f, args)) == ExprConsts(f) + ArgsConsts(args)
  {
  }

  lemma CallEmits(o: Emitted, f: Expr, args: List<Expr>, sc: Scope)
    ensures WithExpr(o, Call(f, args), sc)
         == Emit(WithArgs(WithExpr(o, f, sc), args, sc), Op(CallFn, Length(args)))
  {
    hide GenExpr, GenArgs, ExprLabels, ArgsLabels, ExprConsts, ArgsConsts, Length;
    CallIs(f, args, sc, o.labels, |o.consts|);
    var o1 := WithExpr(o, f, sc);
    var gf, ga := GenExpr(f, sc, o.labels, |o.consts|), GenArgs(args, sc, o1.labels, |o1.consts|);
    assert o.items + (gf + ga + [Op(CallFn, Length(args))]) == o.items + gf + ga + [Op(CallFn, Length(args))];
    assert o.consts + (ExprConsts(f) + ArgsConsts(args)) == o.consts + ExprConsts(f) + ArgsConsts(args);
  }

  lemma ArgsIs(e: Expr, rest: List<Expr>, sc: Scope, l: nat, k: nat)
    ensures GenArgs(Cons(e, rest), sc, l, k)
         == GenExpr(e, sc, l, k) + GenArgs(rest, sc, l + ExprLabels(e), k + |ExprConsts(e)|)
    ensures ArgsLabels(Cons(e, rest)) == ExprLabels(e) + ArgsLabels(rest)
    ensures ArgsConsts(Cons(e, rest)) == ExprConsts(e) + ArgsConsts(rest)
  {
  }

  lemma ArgsStep(o: Emitted, e: Expr, rest: List<Expr>, sc: Scope)
    ensures WithArgs(o, Cons(e, rest), sc) == WithArgs(WithExpr(o, e, sc), rest, sc)
  {
    hide GenExpr, GenArgs, ExprLabels, ArgsLabels, ExprConsts, ArgsConsts;
    ArgsIs(e, rest, sc, o.labels, |o.consts|);
    var o1 := WithExpr(o, e, sc);
    var ge, ga := GenExpr(e, sc, o.labels, |o.consts|), GenArgs(rest, sc, o1.labels, |o1.consts|);
    assert o.items + (ge + ga) == o.items + ge + ga;
    assert o.consts + (ExprConsts(e) + ArgsConsts(rest)) == o.consts + ExprConsts(e) + ArgsConsts(rest);
  }

  lemma NoArgsEmit(o: Emitted, sc: Scope)
    ensures WithArgs(o, Nil, sc) == o
  {
  }

  // ----- statements -----

  lemma DeclareEmits(o: Emitted, x: Name, sc: Scope)
    ensures WithDeclare(o, x, sc)
         == if sc.Global? then Emit(Emit(Emit(o, Op(DeclareGlobal, x)), Op(StoreGlobal, x)), Op(Pop, 0))
            else Emit(Emit(o, Op(StoreLocal, |sc.names|)), Op(Pop, 0))
  {
  }

  function WithOpt(o: Emitted, e: Option<Expr>, sc: Scope): Emitted {
    if e.Some? then WithExpr(o, e.value, sc) else Emit(o, Op(ConstNull, 0))
  }

  lemma OptIs(o: Emitted, e: Option<Expr>, sc: Scope)
    ensures WithOpt(o, e, sc)
         == Emitted(o.items + GenOpt(e, sc, o.labels, |o.consts|), o.labels + OptLabels(e), o.consts + OptConsts(e))
  {
    hide GenExpr, ExprLabels, ExprConsts;
  }

  lemma DeclsIs(d: Decl, rest: List<Decl>, sc: Scope, l: nat, k: nat)
    ensures GenDecls(Cons(d, rest), sc, l, k)
         == GenOpt(d.init, sc, l, k) + GenDeclare(d.name, sc)
            + GenDecls(rest, sc.Declare(d.name), l + OptLabels(d.init), k + |OptConsts(d.init)|)
    ensures DeclsLabels(Cons(d, rest)) == OptLabels(d.init) + DeclsLabels(rest)
    ensures DeclsConsts(Cons(d, rest)) == OptConsts(d.init) + DeclsConsts(rest)
  {
    hide GenOpt, GenDeclare, OptLabels, OptConsts;
  }

  lemma DeclsStep(o: Emitted, d: Decl, rest: List<Decl>, sc: Scope)
    ensures WithDecls(o, Cons(d, rest), sc)
         == WithDecls(WithDeclare(WithOpt(o, d.init, sc), d.name, sc), rest, sc.Declare(d.name))
  {
    hide GenDecls, GenDeclare, GenOpt, OptLabels, OptConsts, DeclsLabels, DeclsConsts, WithOpt;
    DeclsIs(d, rest, sc, o.labels, |o.consts|);
    OptIs(o, d.init, sc);
    var o1 := WithOpt(o, d.init, sc);
    var g0, g1 := GenOpt(d.init, sc, o.labels, |o.consts|), GenDeclare(d.name, sc);
    var g2 := GenDecls(rest, sc.Declare(d.name), o1.labels, |o1.consts|);
    assert o.items + (g0 + g1 + g2) == o.items + g0 + g1 + g2;
    assert o.consts + (OptConsts(d.init) + DeclsConsts(rest)) == o.consts + OptConsts(d.init) + DeclsConsts(rest);
  }

  lemma NoDeclsEmit(o: Emitted, sc: Scope)
    ensures WithDecls(o, Nil, sc) == o
  {
  }

  lemma BlockIs(s: Stmt, rest: List<Stmt>, sc: Scope, lp: Option<Loop>, l: nat, k: nat)
    ensures GenBlock(Cons(s, rest), sc, lp, l, k)
         == GenStmt(s, sc, lp, l, k) + GenBlock(rest, After(s, sc), lp, l + StmtLabels(s), k + |StmtConsts(s)|)
    ensures BlockLabels(Cons(s, rest)) == StmtLabels(s) + BlockLabels(rest)
    ensures BlockConsts(Cons(s, rest)) == StmtConsts(s) + BlockConsts(rest)
  {
    hide GenStmt, StmtLabels, StmtConsts, After;
  }

  lemma BlockStep(o: Emitted, s: Stmt, rest: List<Stmt>, sc: Scope, lp: Option<Loop>)
    ensures WithBlock(o, Cons(s, rest), sc, lp) == WithBlock(WithStmt(o, s, sc, lp), rest, After(s, sc), lp)
  {
    hide GenStmt, GenBlock, StmtLabels, BlockLabels, StmtConsts, BlockConsts, After;
    BlockIs(s, rest, sc, lp, o.labels, |o.consts|);
    var o1 := WithStmt(o, s, sc, lp);
    var gs := GenStmt(s, sc, lp, o.labels, |o.consts|);
    var gb := GenBlock(rest, After(s, sc), lp, o1.labels, |o1.consts|);
    assert o.items + (gs + gb) == o.items + gs + gb;
    assert o.consts + (StmtConsts(s) + BlockConsts(rest)) == o.consts + StmtConsts(s) + BlockConsts(rest);
  }

  lemma NoStmtsEmit(o: Emitted, sc: Scope, lp: Option<Loop>)
    ensures WithBlock(o, Nil, sc, lp) == o
  {
  }

  lemma ExprStmtEmits(o: Emitted, e: Expr, sc: Scope, lp: Option<Loop>)
    ensures WithStmt(o, ExprStmt(e), sc, lp) == Emit(WithExpr(o, e, sc), Op(Pop, 0))
  {
    hide GenExpr, ExprLabels, ExprConsts;
    assert o.items + (GenExpr(e, sc, o.labels, |o.consts|) + [Op(Pop, 0)])
        == o.items + GenExpr(e, sc, o.labels, |o.consts|) + [Op(Pop, 0)];
  }

  lemma ThrowEmits(o: Emitted, e: Expr, sc: Scope, lp: Option<Loop>)
    ensures WithStmt(o, Throw(e), sc, lp) == Emit(WithExpr(o, e, sc), Op(ThrowOp, 0))
  {
    hide GenExpr, ExprLabels, ExprConsts;
    assert o.items + (GenExpr(e, sc, o.labels, |o.consts|) + [Op(ThrowOp, 0)])
        == o.items + GenExpr(e, sc, o.labels, |o.consts|) + [Op(ThrowOp, 0)];
  }

  lemma ReturnEmits(o: Emitted, v: Option<Expr>, sc: Scope, lp: Option<Loop>)
    ensures WithStmt(o, Return(v), sc, lp) == Emit(WithOpt(o, v, sc), Op(Ret, 0))
  {
    hide GenOpt, OptLabels, OptConsts, WithOpt;
    OptIs(o, v, sc);
    assert o.items + (GenOpt(v, sc, o.labels, |o.consts|) + [Op(Ret, 0)])
        == o.items + GenOpt(v, sc, o.labels, |o.consts|) + [Op(Ret, 0)];
  }

  lemma LetEmits(o: Emitted, ds: List<Decl>, sc: Scope, lp: Option<Loop>)
    ensures WithStmt(o, Let(ds), sc, lp) == WithDecls(o, ds, sc)
  {
    hide GenDecls, DeclsLabels, DeclsConsts;
  }

  lemma FunEmits(o: Emitted, i: nat, d: FunDecl, sc: Scope, lp: Option<Loop>)
    ensures WithStmt(o, Fun(i, d), sc, lp)
         == WithDeclare(Emit(NewConst(o, FunConst(i)), Op(LoadConst, |o.consts|)), d.name, sc)
  {
    hide GenDeclare;
    assert o.items + ([Op(LoadConst, |o.consts|)] + GenDeclare(d.name, sc))
        == o.items + [Op(LoadConst, |o.consts|)] + GenDeclare(d.name, sc);
  }

  /** Leaving a loop: one `POP_TRY` for every try block left, then the jump. */
  function WithPops(o: Emitted, n: nat): Emitted {
    if n == 0 then o else Emit(WithPops(o, n - 1), Op(PopTry, 0))
  }

  lemma {:induction false} PopsAre(o: Emitted, n: nat)
    ensures WithPops(o, n) == o.(items := o.items + PopTries(n))
  {
    if n > 0 {
      PopsAre(o, n - 1);
      assert PopTries(n) == PopTries(n - 1) + [Op(PopTry, 0)];
      assert o.items + PopTries(n) == o.items + PopTries(n - 1) + [Op(PopTry, 0)];
    } else {
      assert o.items + PopTries(n) == o.items;
    }
  }

  lemma LeaveEmits(o: Emitted, s: Stmt, sc: Scope, lp: Loop)
    requires s in {Break, Continue}
    ensures WithStmt(o, s, sc, Some(lp))
         == Emit(WithPops(o, lp.tries), Ref(Jump, if s.Break? then lp.breakTo else lp.continueTo))
  {
    hide PopTries, WithPops;
    PopsAre(o, lp.tries);
    var jump := Ref(Jump, if s.Break? then lp.breakTo else lp.continueTo);
    assert o.items + (PopTries(lp.tries) + [jump]) == o.items + PopTries(lp.tries) + [jump];
  }

  // ----- statements with labels -----

  lemma IfIs(c: Expr, t: List<Stmt>, els: Else, sc: Scope, lp: Option<Loop>, l: nat, k: nat)
    ensures var l1, k1 := l + 2 + ExprLabels(c), k + |ExprConsts(c)|;
            GenStmt(If(c, t, els), sc, lp, l, k)
            == IfCode(GenExpr(c, sc, l + 2, k), GenBlock(t, sc, lp, l1, k1),
                      GenElse(els, sc, lp, l1 + BlockLabels(t), k1 + |BlockConsts(t)|), l)
    ensures StmtLabels(If(c, t, els)) == 2 + ExprLabels(c) + BlockLabels(t) + ElseLabels(els)
    ensures StmtConsts(If(c, t, els)) == ExprConsts(c) + BlockConsts(t) + ElseConsts(els)
  {
    hide IfCode, GenExpr, GenBlock, GenElse, ExprLabels, BlockLabels, ElseLabels, ExprConsts, BlockConsts, ElseConsts;
  }

  lemma IfItems(o: seq<Item>, c: seq<Item>, t: seq<Item>, e: seq<Item>, l: nat)
    ensures o + IfCode(c, t, e, l)
         == o + c + [Ref(JumpIfFalse, l)] + t + [Ref(Jump, l + 1)] + [Mark(l)] + e + [Mark(l + 1)]
  {
    assert o + IfCode(c, t, e, l) == o + c + [Ref(JumpIfFalse, l)] + t + [Ref(Jump, l + 1), Mark(l)] + e + [Mark(l + 1)];
  }

  function IfThen(o: Emitted, c: Expr, t: List<Stmt>, sc: Scope, lp: Option<Loop>): Emitted {
    var l := o.labels;
    var o1 := Emit(WithExpr(NewLabel(NewLabel(o)), c, sc), Ref(JumpIfFalse, l));
    Emit(Emit(WithBlock(o1, t, sc, lp), Ref(Jump, l + 1)), Mark(l))
  }

  lemma IfEmits(o: Emitted, c: Expr, t: List<Stmt>, els: Else, sc: Scope, lp: Option<Loop>)
    ensures WithStmt(o, If(c, t, els), sc, lp)
         == Emit(WithElse(IfThen(o, c, t, sc, lp), els, sc, lp), Mark(o.labels + 1))
  {
    hide GenStmt, GenExpr, GenBlock, GenElse, IfCode, StmtLabels, ExprLabels, BlockLabels, ElseLabels;
    hide StmtConsts, ExprConsts, BlockConsts, ElseConsts;
    IfIs(c, t, els, sc, lp, o.labels, |o.consts|);
    var o1 := WithExpr(NewLabel(NewLabel(o)), c, sc);
    var o2 := WithBlock(Emit(o1, Ref(JumpIfFalse, o.labels)), t, sc, lp);
    IfItems(o.items, GenExpr(c, sc, o.labels + 2, |o.consts|), GenBlock(t, sc, lp, o1.labels, |o1.consts|),
            GenElse(els, sc, lp, o2.labels, |o2.consts|), o.labels);
    assert o.consts + (ExprConsts(c) + BlockConsts(t) + ElseConsts(els))
        == o.consts + ExprConsts(c) + BlockConsts(t) + ElseConsts(els);
  }

  lemma NoElseEmits(o: Emitted, sc: Scope, lp: Option<Loop>)
    ensures WithElse(o, NoElse, sc, lp) == o
  {
  }

  lemma ElseIfEmits(o: Emitted, s: Stmt, sc: Scope, lp: Option<Loop>)
    ensures WithElse(o, ElseIf(s), sc, lp) == WithStmt(o, s, sc, lp)
  {
    hide GenStmt, StmtLabels, StmtConsts;
  }

  lemma ElseBlockEmits(o: Emitted, ss: List<Stmt>, sc: Scope, lp: Option<Loop>)
    ensures WithElse(o, ElseBlock(ss), sc, lp) == WithBlock(o, ss, sc, lp)
  {
    hide GenBlock, BlockLabels, BlockConsts;
  }

  lemma WhileIs(c: Expr, body: List<Stmt>, sc: Scope, lp: Option<Loop>, l: nat, k: nat)
    ensures GenStmt(While(c, body), sc, lp, l, k)
         == WhileCode(GenExpr(c, sc, l + 2, k),
                      GenBlock(body, sc, Some(Loop(l + 1, l, 0)), l + 2 + ExprLabels(c), k + |ExprConsts(c)|), l)
    ensures StmtLabels(While(c, body)) == 2 + ExprLabels(c) + BlockLabels(body)
    ensures StmtConsts(While(c, body)) == ExprConsts(c) + BlockConsts(body)
  {
  }

  lemma WhileItems(o: seq<Item>, c: seq<Item>, b: seq<Item>, l: nat)
    ensures o + WhileCode(c, b, l)
         == o + [Mark(l)] + c + [Ref(JumpIfFalse, l + 1)] + b + [Ref(Jump, l)] + [Mark(l + 1)]
  {
    assert o + WhileCode(c, b, l) == o + [Mark(l)] + c + [Ref(JumpIfFalse, l + 1)] + b + [Ref(Jump, l), Mark(l + 1)];
  }

  lemma WhileEmits(o: Emitted, c: Expr, body: List<Stmt>, sc: Scope, lp: Option<Loop>)
    ensures var l := o.labels;
            var o1 := WithExpr(Emit(NewLabel(NewLabel(o)), Mark(l)), c, sc);
            var o2 := WithBlock(Emit(o1, Ref(JumpIfFalse, l + 1)), body, sc, Some(Loop(l + 1, l, 0)));
            WithStmt(o, While(c, body), sc, lp) == Emit(Emit(o2, Ref(Jump, l)), Mark(l + 1))
  {
    hide GenStmt, GenExpr, GenBlock, WhileCode, StmtLabels, ExprLabels, BlockLabels;
    hide StmtConsts, ExprConsts, BlockConsts;
    WhileIs(c, body, sc, lp, o.labels, |o.consts|);
    var l := o.labels;
    var o1 := WithExpr(Emit(NewLabel(NewLabel(o)), Mark(l)), c, sc);
    WhileItems(o.items, GenExpr(c, sc, l + 2, |o.consts|),
               GenBlock(body, sc, Some(Loop(l + 1, l, 0)), o1.labels, |o1.consts|), l);
    assert o.consts + (ExprConsts(c) + BlockConsts(body)) == o.consts + ExprConsts(c) + BlockConsts(body);
  }

  function WithInit(o: Emitted, init: Option<Stmt>, sc: Scope, lp: Option<Loop>): Emitted {
    if init.Some? then WithStmt(o, init.value, sc, lp) else o
  }

  function WithTest(o: Emitted, c: Option<Expr>, sc: Scope, end: nat): Emitted {
    if c.Some? then Emit(WithExpr(o, c.value, sc), Ref(JumpIfFalse, end)) else o
  }

  function WithStep(o: Emitted, e: Option<Expr>, sc: Scope): Emitted {
    if e.Some? then Emit(WithExpr(o, e.value, sc), Op(Pop, 0)) else o
  }

  function GenInit(init: Option<Stmt>, sc: Scope, lp: Option<Loop>, l: nat, k: nat): seq<Item> {
    if init.Some? then GenStmt(init.value, sc, lp, l, k) else []
  }

  lemma InitIs(o: Emitted, init: Option<Stmt>, sc: Scope, lp: Option<Loop>)
    ensures WithInit(o, init, sc, lp)
         == Emitted(o.items + GenInit(init, sc, lp, o.labels, |o.consts|), o.labels + InitLabels(init), o.consts + InitConsts(init))
  {
    hide GenStmt, StmtLabels, StmtConsts;
  }

  lemma TestIs(o: Emitted, c: Option<Expr>, sc: Scope, end: nat)
    ensures WithTest(o, c, sc, end)
         == Emitted(o.items + GenTest(c, sc, o.labels, |o.consts|, end), o.labels + OptLabels(c), o.consts + OptConsts(c))
  {
    hide GenExpr, ExprLabels, ExprConsts;
  }

  lemma StepIs(o: Emitted, e: Option<Expr>, sc: Scope)
    ensures WithStep(o, e, sc)
         == Emitted(o.items + GenStep(e, sc, o.labels, |o.consts|), o.labels + OptLabels(e), o.consts + OptConsts(e))
  {
    hide GenExpr, ExprLabels, ExprConsts;
  }

  lemma ForIs(init: Option<Stmt>, c: Option<Expr>, step: Option<Expr>, body: List<Stmt>, sc: Scope, lp: Option<Loop>, l: nat, k: nat)
    ensures var sc1 := AfterInit(init, sc);
            var l1, k1 := l + 4 + InitLabels(init), k + |InitConsts(init)|;
            var l2, k2 := l1 + OptLabels(c), k1 + |OptConsts(c)|;
            var l3, k3 := l2 + OptLabels(step), k2 + |OptConsts(step)|;
            GenStmt(For(init, c, step, body), sc, lp, l, k)
            == GenInit(init, sc, lp, l + 4, k)
               + ForCode(GenTest(c, sc1, l1, k1, l + 1), GenStep(step, sc1, l2, k2),
                         GenBlock(body, sc1, Some(Loop(l + 1, l + 2, 0)), l3, k3), l)
    ensures StmtLabels(For(init, c, step, body)) == 4 + InitLabels(init) + OptLabels(c) + OptLabels(step) + BlockLabels(body)
    ensures StmtConsts(For(init, c, step, body)) == InitConsts(init) + OptConsts(c) + OptConsts(step) + BlockConsts(body)
  {
    hide InitLabels, InitConsts, OptLabels, OptConsts, GenTest, GenStep, ForCode, AfterInit, GenBlock, BlockLabels, BlockConsts;
  }

  lemma ForItems(o: seq<Item>, i: seq<Item>, t: seq<Item>, s: seq<Item>, b: seq<Item>, l: nat)
    ensures o + (i + ForCode(t, s, b, l))
         == o + i + [Mark(l)] + t + [Ref(Jump, l + 3)] + [Mark(l + 2)] + s + [Ref(Jump, l)] + [Mark(l + 3)]
            + b + [Ref(Jump, l + 2)] + [Mark(l + 1)]
  {
    assert o + (i + ForCode(t, s, b, l)) == o + i + ForCode(t, s, b, l);
    ForItems1(o + i, t, s, b, l);
  }

  lemma ForItems1(o: seq<Item>, t: seq<Item>, s: seq<Item>, b: seq<Item>, l: nat)
    ensures o + ForCode(t, s, b, l)
         == o + [Mark(l)] + t + [Ref(Jump, l + 3)] + [Mark(l + 2)] + s + [Ref(Jump, l)] + [Mark(l + 3)]
            + b + [Ref(Jump, l + 2)] + [Mark(l + 1)]
  {
    var x := [Mark(l)] + t + [Ref(Jump, l + 3), Mark(l + 2)] + s;
    assert o + ForCode(t, s, b, l)
        == (o + x) + [Ref(Jump, l), Mark(l + 3)] + b + [Ref(Jump, l + 2), Mark(l + 1)];
    assert o + x == o + [Mark(l)] + t + [Ref(Jump, l + 3)] + [Mark(l + 2)] + s;
  }

  /** Up to the label of the body. */
  function ForHead(o: Emitted, init: Option<Stmt>, c: Option<Expr>, step: Option<Expr>, sc: Scope, lp: Option<Loop>): Emitted {
    var l, sc1 := o.labels, AfterInit(init, sc);
    var o1 := WithInit(o.(labels := l + 4), init, sc, lp);
    var o2 := Emit(WithTest(Emit(o1, Mark(l)), c, sc1, l + 1), Ref(Jump, l + 3));
    Emit(Emit(WithStep(Emit(o2, Mark(l + 2)), step, sc1), Ref(Jump, l)), Mark(l + 3))
  }

  lemma ForEmits(o: Emitted, init: Option<Stmt>, c: Option<Expr>, step: Option<Expr>, body: List<Stmt>, sc: Scope, lp: Option<Loop>)
    ensures var l, sc1 := o.labels, AfterInit(init, sc);
            var o3 := WithBlock(ForHead(o, init, c, step, sc, lp), body, sc1, Some(Loop(l + 1, l + 2, 0)));
            WithStmt(o, For(init, c, step, body), sc, lp) == Emit(Emit(o3, Ref(Jump, l + 2)), Mark(l + 1))
  {
    hide GenStmt, GenInit, GenTest, GenStep, GenBlock, ForCode, WithInit, WithTest, WithStep, AfterInit;
    hide StmtLabels, InitLabels, OptLabels, BlockLabels, StmtConsts, InitConsts, OptConsts, BlockConsts;
    ForIs(init, c, step, body, sc, lp, o.labels, |o.consts|);
    var l, sc1 := o.labels, AfterInit(init, sc);
    InitIs(o.(labels := l + 4), init, sc, lp);
    var o1 := WithInit(o.(labels := l + 4), init, sc, lp);
    TestIs(Emit(o1, Mark(l)), c, sc1, l + 1);
    var o2 := Emit(WithTest(Emit(o1, Mark(l)), c, sc1, l + 1), Ref(Jump, l + 3));
    StepIs(Emit(o2, Mark(l + 2)), step, sc1);
    var o3 := ForHead(o, init, c, step, sc, lp);
    ForItems(o.items, GenInit(init, sc, lp, l + 4, |o.consts|), GenTest(c, sc1, o1.labels, |o1.consts|, l + 1),
             GenStep(step, sc1, o2.labels, |o2.consts|), GenBlock(body, sc1, Some(Loop(l + 1, l + 2, 0)), o3.labels, |o3.consts|), l);
    assert o.consts + (InitConsts(init) + OptConsts(c) + OptConsts(step) + BlockConsts(body))
        == o.consts + InitConsts(init) + OptConsts(c) + OptConsts(step) + BlockConsts(body);
  }

  lemma TryIs(body: List<Stmt>, name: Option<Name>, handler: List<Stmt>, sc: Scope, lp: Option<Loop>, l: nat, k: nat)
    ensures GenStmt(Try(body, name, handler), sc, lp, l, k)
         == TryCode(GenBlock(body, sc, Deeper(lp), l + 2, k), GenCatch(name, sc),
                    GenBlock(handler, CatchScope(name, sc), lp, l + 2 + BlockLabels(body), k + |BlockConsts(body)|), l)
    ensures StmtLabels(Try(body, name, handler)) == 2 + BlockLabels(body) + BlockLabels(handler)
    ensures StmtConsts(Try(body, name, handler)) == BlockConsts(body) + BlockConsts(handler)
  {
  }

  lemma TryItems(o: seq<Item>, b: seq<Item>, bind: seq<Item>, h: seq<Item>, l: nat)
    ensures o + TryCode(b, bind, h, l)
         == o + [Ref(PushTry, l)] + b + [Op(PopTry, 0)] + [Ref(Jump, l + 1)] + [Mark(l)] + [Op(Catch, 0)] + bind + h + [Mark(l + 1)]
  {
    var x := [Ref(PushTry, l)] + b + [Op(PopTry, 0), Ref(Jump, l + 1), Mark(l), Op(Catch, 0)];
    assert o + TryCode(b, bind, h, l) == o + x + bind + h + [Mark(l + 1)];
    assert o + x == o + [Ref(PushTry, l)] + b + [Op(PopTry, 0)] + [Ref(Jump, l + 1)] + [Mark(l)] + [Op(Catch, 0)];
  }

  /** The value caught: bound to the name, or dropped. */
  function WithCatch(o: Emitted, name: Option<Name>, sc: Scope): Emitted {
    if name.Some? then WithDeclare(o, name.value, sc) else Emit(o, Op(Pop, 0))
  }

  function TryBody(o: Emitted, body: List<Stmt>, sc: Scope, lp: Option<Loop>): Emitted {
    var l := o.labels;
    var o1 := Emit(NewLabel(NewLabel(o)), Ref(PushTry, l));
    Emit(Emit(WithBlock(o1, body, sc, Deeper(lp)), Op(PopTry, 0)), Ref(Jump, l + 1))
  }

  lemma TryEmits(o: Emitted, body: List<Stmt>, name: Option<Name>, handler: List<Stmt>, sc: Scope, lp: Option<Loop>)
    ensures var l := o.labels;
            var o1 := Emit(Emit(TryBody(o, body, sc, lp), Mark(l)), Op(Catch, 0));
            WithStmt(o, Try(body, name, handler), sc, lp)
            == Emit(WithBlock(WithCatch(o1, name, sc), handler, CatchScope(name, sc), lp), Mark(l + 1))
  {
    hide GenStmt, GenBlock, GenCatch, GenDeclare, TryCode, StmtLabels, BlockLabels, StmtConsts, BlockConsts, CatchScope, Deeper;
    TryIs(body, name, handler, sc, lp, o.labels, |o.consts|);
    var l := o.labels;
    var o0 := Emit(Emit(TryBody(o, body, sc, lp), Mark(l)), Op(Catch, 0));
    CatchIs(o0, name, sc);
    var o1 := WithCatch(o0, name, sc);
    TryItems(o.items, GenBlock(body, sc, Deeper(lp), l + 2, |o.consts|), GenCatch(name, sc),
             GenBlock(handler, CatchScope(name, sc), lp, o1.labels, |o1.consts|), l);
    assert o.consts + (BlockConsts(body) + BlockConsts(handler)) == o.consts + BlockConsts(body) + BlockConsts(handler);
  }

  lemma CatchIs(o: Emitted, name: Option<Name>, sc: Scope)
    ensures WithCatch(o, name, sc) == o.(items := o.items + GenCatch(name, sc))
  {
    hide GenDeclare;
  }
}
