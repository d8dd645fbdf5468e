/** Generated code marks each of its labels exactly once: the code of a tree generated
    from label `l` on marks the labels it asked for, and no others. */
module Labels {
  import opened Syntax
  import opened Assembly
  import opened Codegen

  /** How often label `x` is marked. */
  function Count(items: seq<Item>, x: nat): nat {
    if items == [] then 0
    else Count(items[..|items| - 1], x) + if items[|items| - 1] == Mark(x) then 1 else 0
  }

  /** 1 for the labels from `lo` up to `hi`. */
  function In(x: nat, lo: nat, hi: nat): nat { if lo <= x < hi then 1 else 0 }

  function Is(x: nat, y: nat): nat { if x == y then 1 else 0 }

  lemma {:induction false} CountConcat(a: seq<Item>, b: seq<Item>, x: nat)
    ensures Count(a + b, x) == Count(a, x) + Count(b, x)
  {
    if b == [] {
      assert a + b == a;
    } else {
      var n := |b| - 1;
      assert (a + b)[..|a + b| - 1] == a + b[..n];
      CountConcat(a, b[..n], x);
    }
  }

  lemma {:induction false} CountPlain(items: seq<Item>, x: nat)
    requires forall i :: 0 <= i < |items| ==> !items[i].Mark?
    ensures Count(items, x) == 0
  {
    if items != [] {
      CountPlain(items[..|items| - 1], x);
    }
  }

  /** Instructions followed by one label. */
  lemma CountLast(items: seq<Item>, l: nat, x: nat)
    requires forall i :: 0 <= i < |items| ==> !items[i].Mark?
    ensures Count(items + [Mark(l)], x) == Is(x, l)
  {
    CountConcat(items, [Mark(l)], x);
    CountPlain(items, x);
    assert Count([Mark(l)], x) == Is(x, l);
  }

  lemma {:induction false} CountAt(items: seq<Item>, i: nat, j: nat, x: nat)
    requires i < j < |items| && items[i] == items[j] == Mark(x)
    ensures Count(items, x) >= 2
  {
    CountConcat(items[..j], items[j..], x);
    assert items[..j] + items[j..] == items;
    CountOnce(items[..j], i, x);
    CountOnce(items[j..], 0, x);
  }

  lemma CountOnce(items: seq<Item>, i: nat, x: nat)
    requires i < |items| && items[i] == Mark(x)
    ensures Count(items, x) >= 1
  {
    CountConcat(items[..i + 1], items[i + 1..], x);
    assert items[..i + 1] + items[i + 1..] == items;
    assert items[..i + 1][|items[..i + 1]| - 1] == Mark(x);
  }

  // ----- the templates -----

  lemma LogicCount(left: seq<Item>, isAnd: bool, end: nat, right: seq<Item>, x: nat)
    ensures Count(LogicCode(left, isAnd, end, right), x) == Count(left, x) + Count(right, x) + Is(x, end)
  {
    hide Count;
    var mid := [Op(Dup, 0), Ref(if isAnd then JumpIfFalse else JumpIfTrue, end), Op(Pop, 0)];
    CountConcat(left, mid, x);
    CountConcat(left + mid, right, x);
    CountConcat(left + mid + right, [Mark(end)], x);
    CountPlain(mid, x);
    CountLast([], end, x);
    assert [] + [Mark(end)] == [Mark(end)];
  }

  lemma IfCount(cond: seq<Item>, thn: seq<Item>, els: seq<Item>, l: nat, x: nat)
    ensures Count(IfCode(cond, thn, els, l), x)
         == Count(cond, x) + Count(thn, x) + Count(els, x) + In(x, l, l + 2)
  {
    hide Count;
    CountPlain([Ref(JumpIfFalse, l)], x);
    CountLast([Ref(Jump, l + 1)], l, x);
    CountLast([], l + 1, x);
    assert [Ref(Jump, l + 1)] + [Mark(l)] == [Ref(Jump, l + 1), Mark(l)];
    assert [] + [Mark(l + 1)] == [Mark(l + 1)];
    CountConcat(cond, [Ref(JumpIfFalse, l)], x);
    CountConcat(cond + [Ref(JumpIfFalse, l)], thn, x);
    var g := cond + [Ref(JumpIfFalse, l)] + thn;
    CountConcat(g, [Ref(Jump, l + 1), Mark(l)], x);
    CountConcat(g + [Ref(Jump, l + 1), Mark(l)], els, x);
    CountConcat(g + [Ref(Jump, l + 1), Mark(l)] + els, [Mark(l + 1)], x);
  }

  lemma WhileCount(cond: seq<Item>, body: seq<Item>, l: nat, x: nat)
    ensures Count(WhileCode(cond, body, l), x) == Count(cond, x) + Count(body, x) + In(x, l, l + 2)
  {
    hide Count;
    CountLast([], l, x);
    CountPlain([Ref(JumpIfFalse, l + 1)], x);
    CountLast([Ref(Jump, l)], l + 1, x);
    assert [] + [Mark(l)] == [Mark(l)];
    assert [Ref(Jump, l)] + [Mark(l + 1)] == [Ref(Jump, l), Mark(l + 1)];
    CountConcat([Mark(l)], cond, x);
    CountConcat([Mark(l)] + cond, [Ref(JumpIfFalse, l + 1)], x);
    var g := [Mark(l)] + cond + [Ref(JumpIfFalse, l + 1)];
    CountConcat(g, body, x);
    CountConcat(g + body, [Ref(Jump, l), Mark(l + 1)], x);
  }

  lemma ForCount(test: seq<Item>, step: seq<Item>, body: seq<Item>, l: nat, x: nat)
    ensures Count(ForCode(test, step, body, l), x)
         == Count(test, x) + Count(step, x) + Count(body, x) + In(x, l, l + 4)
  {
    hide Count;
    CountLast([], l, x);
    CountLast([Ref(Jump, l + 3)], l + 2, x);
    CountLast([Ref(Jump, l)], l + 3, x);
    CountLast([Ref(Jump, l + 2)], l + 1, x);
    assert [] + [Mark(l)] == [Mark(l)];
    assert [Ref(Jump, l + 3)] + [Mark(l + 2)] == [Ref(Jump, l + 3), Mark(l + 2)];
    assert [Ref(Jump, l)] + [Mark(l + 3)] == [Ref(Jump, l), Mark(l + 3)];
    assert [Ref(Jump, l + 2)] + [Mark(l + 1)] == [Ref(Jump, l + 2), Mark(l + 1)];
    CountConcat([Mark(l)], test, x);
    var g1 := [Mark(l)] + test;
    CountConcat(g1, [Ref(Jump, l + 3), Mark(l + 2)], x);
    var g2 := g1 + [Ref(Jump, l + 3), Mark(l + 2)];
    CountConcat(g2, step, x);
    var g3 := g2 + step;
    CountConcat(g3, [Ref(Jump, l), Mark(l + 3)], x);
    var g4 := g3 + [Ref(Jump, l), Mark(l + 3)];
    CountConcat(g4, body, x);
    CountConcat(g4 + body, [Ref(Jump, l + 2), Mark(l + 1)], x);
  }

  lemma TryCount(body: seq<Item>, bind: seq<Item>, handler: seq<Item>, l: nat, x: nat)
    ensures Count(TryCode(body, bind, handler, l), x)
         == Count(body, x) + Count(bind, x) + Count(handler, x) + In(x, l, l + 2)
  {
    hide Count;
    var mid := [Op(PopTry, 0), Ref(Jump, l + 1), Mark(l), Op(Catch, 0)];
    CountLast([Op(PopTry, 0), Ref(Jump, l + 1)], l, x);
    CountPlain([Op(Catch, 0)], x);
    CountConcat([Op(PopTry, 0), Ref(Jump, l + 1)] + [Mark(l)], [Op(Catch, 0)], x);
    assert [Op(PopTry, 0), Ref(Jump, l + 1)] + [Mark(l)] + [Op(Catch, 0)] == mid;
    CountLast([], l + 1, x);
    assert [] + [Mark(l + 1)] == [Mark(l + 1)];
    CountPlain([Ref(PushTry, l)], x);
    CountConcat([Ref(PushTry, l)], body, x);
    var g1 := [Ref(PushTry, l)] + body;
    CountConcat(g1, mid, x);
    CountConcat(g1 + mid, bind, x);
    CountConcat(g1 + mid + bind, handler, x);
    CountConcat(g1 + mid + bind + handler, [Mark(l + 1)], x);
  }

  /** Instructions after a piece of code mark nothing. */
  lemma CountThen(a: seq<Item>, plain: seq<Item>, x: nat)
    requires forall i :: 0 <= i < |plain| ==> !plain[i].Mark?
    ensures Count(a + plain, x) == Count(a, x)
  {
    CountConcat(a, plain, x);
    CountPlain(plain, x);
  }

  // ----- expressions -----

  lemma {:induction false} ExprMarks(e: Expr, sc: Scope, l: nat, k: nat, x: nat)
    ensures Count(GenExpr(e, sc, l, k), x) == In(x, l, l + ExprLabels(e))
    decreases e, 0
  {
    hide Count, GenExpr, ExprLabels;
    match e
    case Const(_) => LeafMarks(e, sc, l, k, x);
    case Var(_) => LeafMarks(e, sc, l, k, x);
    case Bump(_, _) => LeafMarks(e, sc, l, k, x);
    case Assign(y, e1) => AssignMarks(y, e1, sc, l, k, x);
    case OpAssign(y, op, e1) => OpAssignMarks(y, op, e1, sc, l, k, x);
    case Unary(op, e1) => UnaryMarks(op, e1, sc, l, k, x);
    case Binary(op, a, b) => BinaryMarks(op, a, b, sc, l, k, x);
    case Logic(isAnd, a, b) => LogicMarks(isAnd, a, b, sc, l, k, x);
    case Call(f, args) => CallMarks(f, args, sc, l, k, x);
  }

  lemma LeafMarks(e: Expr, sc: Scope, l: nat, k: nat, x: nat)
    requires e.Const? || e.Var? || e.Bump?
    ensures Count(GenExpr(e, sc, l, k), x) == In(x, l, l + ExprLabels(e))
  {
    hide Count;
    match e
    case Const(lit) => CountPlain([GenLiteral(lit, k)], x);
    case Var(y) => CountPlain([Load(y, sc)], x);
    case Bump(y, up) =>
      CountPlain([Load(y, sc), Op(Dup, 0), Op(if up then Inc else Dec, 0), Store(y, sc), Op(Pop, 0)], x);
  }

  lemma {:induction false} AssignMarks(y: Name, e1: Expr, sc: Scope, l: nat, k: nat, x: nat)
    ensures Count(GenExpr(Assign(y, e1), sc, l, k), x) == In(x, l, l + ExprLabels(Assign(y, e1)))
    decreases Assign(y, e1), 0, 0
  {
    hide Count;
    ExprMarks(e1, sc, l, k, x);
    CountThen(GenExpr(e1, sc, l, k), [Store(y, sc)], x);
  }

  lemma {:induction false} UnaryMarks(op: UnOp, e1: Expr, sc: Scope, l: nat, k: nat, x: nat)
    ensures Count(GenExpr(Unary(op, e1), sc, l, k), x) == In(x, l, l + ExprLabels(Unary(op, e1)))
    decreases Unary(op, e1), 0, 0
  {
    hide Count;
    ExprMarks(e1, sc, l, k, x);
    CountThen(GenExpr(e1, sc, l, k), [Op(Un(op), 0)], x);
  }

  lemma {:induction false} LogicMarks(isAnd: bool, a: Expr, b: Expr, sc: Scope, l: nat, k: nat, x: nat)
    ensures Count(GenExpr(Logic(isAnd, a, b), sc, l, k), x) == In(x, l, l + ExprLabels(Logic(isAnd, a, b)))
    decreases Logic(isAnd, a, b), 0, 0
  {
    hide Count, LogicCode, ExprConsts;
    var end, k1 := l + ExprLabels(a), k + |ExprConsts(a)|;
    ExprMarks(a, sc, l, k, x);
    ExprMarks(b, sc, end + 1, k1, x);
    LogicCount(GenExpr(a, sc, l, k), isAnd, end, GenExpr(b, sc, end + 1, k1), x);
  }

  lemma {:induction false} CallMarks(f: Expr, args: List<Expr>, sc: Scope, l: nat, k: nat, x: nat)
    ensures Count(GenExpr(Call(f, args), sc, l, k), x) == In(x, l, l + ExprLabels(Call(f, args)))
    decreases Call(f, args), 0, 0
  {
    hide Count, ExprConsts, GenArgs, ArgsLabels;
    var m, k1 := l + ExprLabels(f), k + |ExprConsts(f)|;
    ExprMarks(f, sc, l, k, x);
    ArgsMarks(args, sc, m, k1, x);
    CountConcat(GenExpr(f, sc, l, k), GenArgs(args, sc, m, k1), x);
    CountThen(GenExpr(f, sc, l, k) + GenArgs(args, sc, m, k1), [Op(CallFn, Length(args))], x);
  }

  lemma {:induction false} OpAssignMarks(y: Name, op: BinOp, e1: Expr, sc: Scope, l: nat, k: nat, x: nat)
    ensures Count(GenExpr(OpAssign(y, op, e1), sc, l, k), x) == In(x, l, l + ExprLabels(OpAssign(y, op, e1)))
    decreases OpAssign(y, op, e1), 0, 0
  {
    hide Count, ExprConsts;
    ExprMarks(e1, sc, l, k, x);
    CountConcat([Load(y, sc)], GenExpr(e1, sc, l, k), x);
    CountPlain([Load(y, sc)], x);
    CountThen([Load(y, sc)] + GenExpr(e1, sc, l, k), [Op(Bin(op), 0), Store(y, sc)], x);
  }

  lemma {:induction false} BinaryMarks(op: BinOp, a: Expr, b: Expr, sc: Scope, l: nat, k: nat, x: nat)
    ensures Count(GenExpr(Binary(op, a, b), sc, l, k), x) == In(x, l, l + ExprLabels(Binary(op, a, b)))
    decreases Binary(op, a, b), 0, 0
  {
    hide Count, ExprConsts;
    var m, k1 := l + ExprLabels(a), k + |ExprConsts(a)|;
    ExprMarks(a, sc, l, k, x);
    ExprMarks(b, sc, m, k1, x);
    CountConcat(GenExpr(a, sc, l, k), GenExpr(b, sc, m, k1), x);
    CountThen(GenExpr(a, sc, l, k) + GenExpr(b, sc, m, k1), [Op(Bin(op), 0)], x);
  }

  lemma {:induction false} ArgsMarks(es: List<Expr>, sc: Scope, l: nat, k: nat, x: nat)
    ensures Count(GenArgs(es, sc, l, k), x) == In(x, l, l + ArgsLabels(es))
    decreases es, 0
  {
    hide Count, GenExpr, ExprLabels, ExprConsts;
    match es
    case Nil => CountPlain([], x);
    case Cons(e, rest) =>
      var m, k1 := l + ExprLabels(e), k + |ExprConsts(e)|;
      ExprMarks(e, sc, l, k, x);
      ArgsMarks(rest, sc, m, k1, x);
      CountConcat(GenExpr(e, sc, l, k), GenArgs(rest, sc, m, k1), x);
  }

  lemma OptMarks(e: Option<Expr>, sc: Scope, l: nat, k: nat, x: nat)
    ensures Count(GenOpt(e, sc, l, k), x) == In(x, l, l + OptLabels(e))
  {
    if e.Some? {
      ExprMarks(e.value, sc, l, k, x);
    } else {
      CountPlain(GenOpt(e, sc, l, k), x);
    }
  }

  lemma TestMarks(e: Option<Expr>, sc: Scope, l: nat, k: nat, end: nat, x: nat)
    ensures Count(GenTest(e, sc, l, k, end), x) == In(x, l, l + OptLabels(e))
  {
    hide Count, GenExpr, ExprLabels;
    if e.Some? {
      ExprMarks(e.value, sc, l, k, x);
      CountThen(GenExpr(e.value, sc, l, k), [Ref(JumpIfFalse, end)], x);
    } else {
      CountPlain([], x);
    }
  }

  lemma StepMarks(e: Option<Expr>, sc: Scope, l: nat, k: nat, x: nat)
    ensures Count(GenStep(e, sc, l, k), x) == In(x, l, l + OptLabels(e))
  {
    hide Count, GenExpr, ExprLabels;
    if e.Some? {
      ExprMarks(e.value, sc, l, k, x);
      CountThen(GenExpr(e.value, sc, l, k), [Op(Pop, 0)], x);
    } else {
      CountPlain([], x);
    }
  }

  // ----- statements -----

  lemma {:induction false} DeclsMarks(ds: List<Decl>, sc: Scope, l: nat, k: nat, x: nat)
    ensures Count(GenDecls(ds, sc, l, k), x) == In(x, l, l + DeclsLabels(ds))
  {
    hide Count, GenOpt, OptLabels;
    match ds
    case Nil => CountPlain([], x);
    case Cons(d, rest) =>
      var m, k1 := l + OptLabels(d.init), k + |OptConsts(d.init)|;
      var g0 := GenOpt(d.init, sc, l, k) + GenDeclare(d.name, sc);
      OptMarks(d.init, sc, l, k, x);
      DeclsMarks(rest, sc.Declare(d.name), m, k1, x);
      CountThen(GenOpt(d.init, sc, l, k), GenDeclare(d.name, sc), x);
      CountConcat(g0, GenDecls(rest, sc.Declare(d.name), m, k1), x);
  }

  lemma {:induction false} StmtMarks(s: Stmt, sc: Scope, lp: Option<Loop>, l: nat, k: nat, x: nat)
    ensures Count(GenStmt(s, sc, lp, l, k), x) == In(x, l, l + StmtLabels(s))
    decreases s, 1
  {
    hide Count, IfCode, WhileCode, ForCode, TryCode, GenExpr, GenOpt, GenTest, GenStep, GenDecls, GenBlock, GenElse;
    hide ExprLabels, OptLabels, DeclsLabels, BlockLabels, ElseLabels, ExprConsts, BlockConsts;
    match s
    case ExprStmt(e) =>
      ExprMarks(e, sc, l, k, x);
      CountThen(GenExpr(e, sc, l, k), [Op(Pop, 0)], x);
    case Let(ds) => DeclsMarks(ds, sc, l, k, x);
    case If(c, t, els) =>
      var l1, k1 := l + 2 + ExprLabels(c), k + |ExprConsts(c)|;
      var l2, k2 := l1 + BlockLabels(t), k1 + |BlockConsts(t)|;
      ExprMarks(c, sc, l + 2, k, x);
      BlockMarks(t, sc, lp, l1, k1, x);
      ElseMarks(els, sc, lp, l2, k2, x);
      IfCount(GenExpr(c, sc, l + 2, k), GenBlock(t, sc, lp, l1, k1), GenElse(els, sc, lp, l2, k2), l, x);
    case While(c, body) =>
      var l1, k1 := l + 2 + ExprLabels(c), k + |ExprConsts(c)|;
      var lp1 := Some(Loop(l + 1, l, 0));
      ExprMarks(c, sc, l + 2, k, x);
      BlockMarks(body, sc, lp1, l1, k1, x);
      WhileCount(GenExpr(c, sc, l + 2, k), GenBlock(body, sc, lp1, l1, k1), l, x);
    case For(init, c, step, body) => ForMarks(s, sc, lp, l, k, x);
    case Break => CountPlain(GenStmt(s, sc, lp, l, k), x);
    case Continue => CountPlain(GenStmt(s, sc, lp, l, k), x);
    case Return(v) =>
      OptMarks(v, sc, l, k, x);
      CountThen(GenOpt(v, sc, l, k), [Op(Ret, 0)], x);
    case Throw(e) =>
      ExprMarks(e, sc, l, k, x);
      CountThen(GenExpr(e, sc, l, k), [Op(ThrowOp, 0)], x);
    case Try(body, name, handler) =>
      var l1, k1 := l + 2 + BlockLabels(body), k + |BlockConsts(body)|;
      var gb, gn := GenBlock(body, sc, Deeper(lp), l + 2, k), GenCatch(name, sc);
      var gh := GenBlock(handler, CatchScope(name, sc), lp, l1, k1);
      BlockMarks(body, sc, Deeper(lp), l + 2, k, x);
      BlockMarks(handler, CatchScope(name, sc), lp, l1, k1, x);
      CountPlain(gn, x);
      TryCount(gb, gn, gh, l, x);
    case Fun(_, d) => CountPlain(GenStmt(s, sc, lp, l, k), x);
  }

  lemma {:induction false} ForMarks(s: Stmt, sc: Scope, lp: Option<Loop>, l: nat, k: nat, x: nat)
    requires s.For?
    ensures Count(GenStmt(s, sc, lp, l, k), x) == In(x, l, l + StmtLabels(s))
    decreases s, 0
  {
    hide Count, ForCode, GenTest, GenStep, GenBlock, OptLabels, BlockLabels, OptConsts, BlockConsts;
    var sc1 := AfterInit(s.init, sc);
    var l1, k1 := l + 4 + InitLabels(s.init), k + |InitConsts(s.init)|;
    var l2, k2 := l1 + OptLabels(s.test), k1 + |OptConsts(s.test)|;
    var l3, k3 := l2 + OptLabels(s.step), k2 + |OptConsts(s.step)|;
    var gt, gs := GenTest(s.test, sc1, l1, k1, l + 1), GenStep(s.step, sc1, l2, k2);
    var gb := GenBlock(s.body, sc1, Some(Loop(l + 1, l + 2, 0)), l3, k3);
    var gi := if s.init.Some? then GenStmt(s.init.value, sc, lp, l + 4, k) else [];
    if s.init.Some? {
      StmtMarks(s.init.value, sc, lp, l + 4, k, x);
    } else {
      CountPlain([], x);
    }
    TestMarks(s.test, sc1, l1, k1, l + 1, x);
    StepMarks(s.step, sc1, l2, k2, x);
    BlockMarks(s.body, sc1, Some(Loop(l + 1, l + 2, 0)), l3, k3, x);
    ForCount(gt, gs, gb, l, x);
    CountConcat(gi, ForCode(gt, gs, gb, l), x);
  }

  lemma {:induction false} ElseMarks(els: Else, sc: Scope, lp: Option<Loop>, l: nat, k: nat, x: nat)
    ensures Count(GenElse(els, sc, lp, l, k), x) == In(x, l, l + ElseLabels(els))
    decreases els, 1
  {
    hide Count, GenStmt, StmtLabels;
    match els
    case NoElse => CountPlain([], x);
    case ElseIf(s) => StmtMarks(s, sc, lp, l, k, x);
    case ElseBlock(body) => BlockMarks(body, sc, lp, l, k, x);
  }

  lemma {:induction false} BlockMarks(ss: List<Stmt>, sc: Scope, lp: Option<Loop>, l: nat, k: nat, x: nat)
    ensures Count(GenBlock(ss, sc, lp, l, k), x) == In(x, l, l + BlockLabels(ss))
    decreases ss, 1
  {
    hide GenStmt, StmtLabels, StmtConsts, After, Count;
    match ss
    case Nil => CountPlain([], x);
    case Cons(s, rest) =>
      var m, k1 := l + StmtLabels(s), k + |StmtConsts(s)|;
      StmtMarks(s, sc, lp, l, k, x);
      BlockMarks(rest, After(s, sc), lp, m, k1, x);
      CountConcat(GenStmt(s, sc, lp, l, k), GenBlock(rest, After(s, sc), lp, m, k1), x);
  }

  lemma OnceIfCounted(items: seq<Item>)
    requires forall x :: Count(items, x) <= 1
    ensures MarkedOnce(items)
  {
    forall i, j | 0 <= i < j < |items| && items[i].Mark?
      ensures items[i] != items[j]
    {
      if items[i] == items[j] {
        CountAt(items, i, j, items[i].lab);
      }
    }
  }

  lemma FunMarks(d: FunDecl, x: nat)
    ensures Count(GenFun(d), x) == In(x, 0, 1 + BlockLabels(d.body))
  {
    hide GenBlock, BlockLabels, BodySlots, Count;
    var pre := [Mark(0), Op(AllocateLocals, BodySlots(d) - |d.params|)];
    var post := [Op(ConstNull, 0), Op(Ret, 0)];
    var g := GenBlock(d.body, Local(d.params), None, 1, 0);
    BlockMarks(d.body, Local(d.params), None, 1, 0, x);
    CountConcat(pre, g, x);
    CountConcat(pre + g, post, x);
    CountPlain(post, x);
    CountLast([], 0, x);
    CountConcat([] + [Mark(0)], [pre[1]], x);
    CountPlain([pre[1]], x);
    assert [] + [Mark(0)] + [pre[1]] == pre;
  }

  lemma ModuleMarks(body: List<Stmt>, x: nat)
    ensures Count(GenModule(body), x) == In(x, 0, BlockLabels(body))
  {
    hide GenBlock, BlockLabels, Count;
    BlockMarks(body, Global, None, 0, 0, x);
    CountConcat(GenBlock(body, Global, None, 0, 0), [Op(Halt, 0)], x);
    CountPlain([Op(Halt, 0)], x);
  }

  lemma FunMarkedOnce(d: FunDecl)
    ensures MarkedOnce(GenFun(d))
  {
    hide GenFun, Count;
    forall x
      ensures Count(GenFun(d), x) <= 1
    {
      FunMarks(d, x);
    }
    OnceIfCounted(GenFun(d));
  }

  lemma ModuleMarkedOnce(body: List<Stmt>)
    ensures MarkedOnce(GenModule(body))
  {
    hide GenModule, Count;
    forall x
      ensures Count(GenModule(body), x) <= 1
    {
      ModuleMarks(body, x);
    }
    OnceIfCounted(GenModule(body));
  }

  lemma {:induction false} MarkedIfCounted(items: seq<Item>, x: nat)
    requires Count(items, x) >= 1
    ensures Mark(x) in items
  {
    if items[|items| - 1] != Mark(x) {
      MarkedIfCounted(items[..|items| - 1], x);
    }
  }
}
