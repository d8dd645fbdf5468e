/** All generated code suits its notes: expressions push one operand, statements none,
    and every jump, `break` and `continue` arrives with the `try`s of its target. */
module Nesting {
  import opened Syntax
  import opened Assembly
  import opened Codegen
  import opened Effects
  import opened Compiler
  import opened Notes
  import opened Labels

  /** The code `g` moves the height by `d`; the labels it marks, all below `l`, are added
      to what `env` says. */
  ghost predicate Suits(g: seq<Item>, n: Note, d: int, env: Env, more: Env, l: nat) {
    Extends(env, more) && Below(more, l) && Typed(g, n, more) && End(g, n) == Up(n, d)
  }

  lemma Chain(a: seq<Item>, b: seq<Item>, n: Note, d: int, e: int, env: Env, env1: Env, env2: Env, l1: nat, l2: nat)
    requires Suits(a, n, d, env, env1, l1) && Suits(b, Up(n, d), e, env1, env2, l2)
    ensures Suits(a + b, n, d + e, env, env2, l2)
  {
    hide Typed, NoteAt;
    TypedGrows(a, n, env1, env2);
    Join(a, b, n, d, e, env2);
  }

  lemma Then(a: seq<Item>, it: Item, n: Note, d: int, env: Env, more: Env, l: nat)
    requires Suits(a, n, d, env, more, l) && Plain(it) && Ready(n, env) && d >= Takes(it)
    ensures Suits(a + [it], n, d + Moves(it), env, more, l)
  {
    hide Typed, NoteAt, Plain, Moves;
    SettledGrows(n.nest, n.height, env, more);
    PlainThen(a, it, n, d, more);
  }

  lemma Single(it: Item, n: Note, env: Env, l: nat)
    requires Plain(it) && Takes(it) == 0 && Ready(n, env) && Below(env, l)
    ensures Suits([it], n, Moves(it), env, env, l)
  {
    PlainOne(it, n, env);
  }

  lemma LoadIsPlain(x: Name, sc: Scope)
    ensures Plain(Load(x, sc)) && Moves(Load(x, sc)) == 1 && Takes(Load(x, sc)) == 0
    ensures Plain(Store(x, sc)) && Moves(Store(x, sc)) == 0 && Takes(Store(x, sc)) == 1
  {
  }

  // ----- expressions -----

  lemma {:induction false} ExprSuits(e: Expr, sc: Scope, l: nat, k: nat, n: Note, env: Env) returns (more: Env)
    requires Ready(n, env) && Below(env, l)
    ensures Suits(GenExpr(e, sc, l, k), n, 1, env, more, l + ExprLabels(e))
    decreases e, 1
  {
    hide Suits, Settled, Below, Moves, Plain, LogicCode;
    match e
    case Const(lit) =>
      LiteralIsPlain(lit, k);
      Single(GenLiteral(lit, k), n, env, l);
      more := env;
    case Var(x) =>
      LoadIsPlain(x, sc);
      Single(Load(x, sc), n, env, l);
      more := env;
    case Assign(x, e1) =>
      LoadIsPlain(x, sc);
      more := ExprSuits(e1, sc, l, k, n, env);
      Then(GenExpr(e1, sc, l, k), Store(x, sc), n, 1, env, more, l + ExprLabels(e1));
    case OpAssign(x, op, e1) => more := OpAssignSuits(x, op, e1, sc, l, k, n, env);
    case Bump(x, up) => more := BumpSuits(x, up, sc, l, k, n, env);
    case Unary(op, e1) =>
      OperatorMoves(op, Add);
      more := ExprSuits(e1, sc, l, k, n, env);
      Then(GenExpr(e1, sc, l, k), Op(Un(op), 0), n, 1, env, more, l + ExprLabels(e1));
    case Binary(op, a, b) => more := BinarySuits(op, a, b, sc, l, k, n, env);
    case Logic(isAnd, a, b) => more := LogicSuits(isAnd, a, b, sc, l, k, n, env);
    case Call(f, args) => more := CallSuits(f, args, sc, l, k, n, env);
  }

  lemma LiteralIsPlain(lit: Literal, k: nat)
    ensures Plain(GenLiteral(lit, k)) && Moves(GenLiteral(lit, k)) == 1 && Takes(GenLiteral(lit, k)) == 0
  {
  }

  lemma OperatorMoves(u: UnOp, b: BinOp)
    ensures Plain(Op(Un(u), 0)) && Moves(Op(Un(u), 0)) == 0
    ensures Plain(Op(Bin(b), 0)) && Moves(Op(Bin(b), 0)) == -1
    ensures forall n: nat :: Plain(Op(CallFn, n)) && Moves(Op(CallFn, n)) == 0 - n as int
  {
  }

  /** The note of a place that is only higher is as good. */
  lemma StillReady(n: Note, d: int, env: Env, more: Env, l: nat, g: seq<Item>)
    requires Ready(n, env) && Suits(g, n, d, env, more, l) && d >= 0
    ensures Ready(Up(n, d), more) && Below(more, l)
  {
    hide Typed, NoteAt;
    SettledGrows(n.nest, n.height, env, more);
  }

  lemma {:induction false} OpAssignSuits(x: Name, op: BinOp, e1: Expr, sc: Scope, l: nat, k: nat, n: Note, env: Env) returns (more: Env)
    requires Ready(n, env) && Below(env, l)
    ensures Suits(GenExpr(OpAssign(x, op, e1), sc, l, k), n, 1, env, more, l + ExprLabels(e1))
    decreases OpAssign(x, op, e1), 0
  {
    hide Suits, Settled, Below, Moves, Plain;
    var g, m := GenExpr(e1, sc, l, k), l + ExprLabels(e1);
    LoadIsPlain(x, sc);
    OperatorMoves(Not, op);
    Single(Load(x, sc), n, env, l);
    StillReady(n, 1, env, env, l, [Load(x, sc)]);
    more := ExprSuits(e1, sc, l, k, Up(n, 1), env);
    Chain([Load(x, sc)], g, n, 1, 1, env, env, more, l, m);
    Then([Load(x, sc)] + g, Op(Bin(op), 0), n, 2, env, more, m);
    Then([Load(x, sc)] + g + [Op(Bin(op), 0)], Store(x, sc), n, 1, env, more, m);
    assert [Load(x, sc)] + g + [Op(Bin(op), 0)] + [Store(x, sc)] == [Load(x, sc)] + g + [Op(Bin(op), 0), Store(x, sc)];
  }

  lemma BumpSuits(x: Name, up: bool, sc: Scope, l: nat, k: nat, n: Note, env: Env) returns (more: Env)
    requires Ready(n, env) && Below(env, l)
    ensures Suits(GenExpr(Bump(x, up), sc, l, k), n, 1, env, more, l)
  {
    hide Suits, Settled, Below, Moves, Plain;
    StackOps();
    BumpMoves(up);
    LoadIsPlain(x, sc);
    var bump := Op(if up then Inc else Dec, 0);
    more := env;
    Single(Load(x, sc), n, env, l);
    Then([Load(x, sc)], Op(Dup, 0), n, 1, env, more, l);
    var two := [Load(x, sc)] + [Op(Dup, 0)];
    Then(two, bump, n, 2, env, more, l);
    Then(two + [bump], Store(x, sc), n, 2, env, more, l);
    Then(two + [bump] + [Store(x, sc)], Op(Pop, 0), n, 2, env, more, l);
    assert two + [bump] + [Store(x, sc)] + [Op(Pop, 0)] == [Load(x, sc), Op(Dup, 0), bump, Store(x, sc), Op(Pop, 0)];
  }

  lemma {:induction false} BinarySuits(op: BinOp, a: Expr, b: Expr, sc: Scope, l: nat, k: nat, n: Note, env: Env) returns (more: Env)
    requires Ready(n, env) && Below(env, l)
    ensures Suits(GenExpr(Binary(op, a, b), sc, l, k), n, 1, env, more, l + ExprLabels(Binary(op, a, b)))
    decreases Binary(op, a, b), 0
  {
    hide Suits, Settled, Below, Moves, Plain;
    var m, k1 := l + ExprLabels(a), k + |ExprConsts(a)|;
    var ga, gb := GenExpr(a, sc, l, k), GenExpr(b, sc, m, k1);
    OperatorMoves(Not, op);
    var env1 := ExprSuits(a, sc, l, k, n, env);
    StillReady(n, 1, env, env1, m, ga);
    more := ExprSuits(b, sc, m, k1, Up(n, 1), env1);
    Chain(ga, gb, n, 1, 1, env, env1, more, m, m + ExprLabels(b));
    Then(ga + gb, Op(Bin(op), 0), n, 2, env, more, m + ExprLabels(b));
  }

  lemma {:induction false} CallSuits(f: Expr, args: List<Expr>, sc: Scope, l: nat, k: nat, n: Note, env: Env) returns (more: Env)
    requires Ready(n, env) && Below(env, l)
    ensures Suits(GenExpr(Call(f, args), sc, l, k), n, 1, env, more, l + ExprLabels(Call(f, args)))
    decreases Call(f, args), 0
  {
    hide Suits, Settled, Below, Moves, Plain;
    var m, k1 := l + ExprLabels(f), k + |ExprConsts(f)|;
    var gf, ga := GenExpr(f, sc, l, k), GenArgs(args, sc, m, k1);
    OperatorMoves(Not, Add);
    var env1 := ExprSuits(f, sc, l, k, n, env);
    StillReady(n, 1, env, env1, m, gf);
    more := ArgsSuit(args, sc, m, k1, Up(n, 1), env1);
    Chain(gf, ga, n, 1, Length(args), env, env1, more, m, m + ArgsLabels(args));
    Then(gf + ga, Op(CallFn, Length(args)), n, 1 + Length(args), env, more, m + ArgsLabels(args));
  }

  lemma {:induction false} ArgsSuit(es: List<Expr>, sc: Scope, l: nat, k: nat, n: Note, env: Env) returns (more: Env)
    requires Ready(n, env) && Below(env, l)
    ensures Suits(GenArgs(es, sc, l, k), n, Length(es), env, more, l + ArgsLabels(es))
    decreases es, 1
  {
    hide Suits, Settled, Below;
    match es
    case Nil =>
      more := env;
      Empty(n, env, l);
    case Cons(e, rest) =>
      var m, k1 := l + ExprLabels(e), k + |ExprConsts(e)|;
      var env1 := ExprSuits(e, sc, l, k, n, env);
      StillReady(n, 1, env, env1, m, GenExpr(e, sc, l, k));
      more := ArgsSuit(rest, sc, m, k1, Up(n, 1), env1);
      Chain(GenExpr(e, sc, l, k), GenArgs(rest, sc, m, k1), n, 1, Length(rest), env, env1, more, m, m + ArgsLabels(rest));
  }

  lemma Empty(n: Note, env: Env, l: nat)
    requires Below(env, l)
    ensures Suits([], n, 0, env, env, l)
  {
  }

  /** A jump on the top operand, with the label known. */
  lemma JumpThen(a: seq<Item>, op: Opcode, lab: nat, n: Note, d: int, env: Env, more: Env, l: nat)
    requires Suits(a, n, d, env, more, l) && Ready(n, env) && d > 0 && op in {JumpIfTrue, JumpIfFalse} && (env.Says(lab, Up(n, d - 1)) || more.Says(lab, Up(n, d - 1)))
    ensures Suits(a + [Ref(op, lab)], n, d - 1, env, more, l)
  {
    hide Typed, NoteAt;
    SettledGrows(n.nest, n.height, env, more);
    TypedThen(a, Ref(op, lab), n, more);
  }

  /** A jump away: what follows is not reached from here. */
  lemma GotoThen(a: seq<Item>, lab: nat, n: Note, d: int, env: Env, more: Env, l: nat)
    requires Suits(a, n, d, env, more, l) && Ready(n, env) && d >= 0 && (env.Says(lab, Up(n, d)) || more.Says(lab, Up(n, d)))
    ensures Suits(a + [Ref(Jump, lab)], n, d, env, more, l)
  {
    hide Typed, NoteAt;
    SettledGrows(n.nest, n.height, env, more);
    TypedThen(a, Ref(Jump, lab), n, more);
    assert n.nest[..|n.nest|] == n.nest;
  }

  lemma MarkThen(a: seq<Item>, lab: nat, n: Note, d: int, env: Env, more: Env, l: nat)
    requires Suits(a, n, d, env, more, l) && Ready(n, env) && d >= 0 && (env.Says(lab, Up(n, d)) || more.Says(lab, Up(n, d)))
    ensures Suits(a + [Mark(lab)], n, d, env, more, l)
  {
    hide Typed, NoteAt;
    SettledGrows(n.nest, n.height, env, more);
    TypedThen(a, Mark(lab), n, more);
  }

  /** A label more is known. */
  lemma Learn(a: seq<Item>, n: Note, d: int, env: Env, more: Env, l: nat, n1: Note)
    requires Suits(a, n, d, env, more, l)
    ensures Suits(a, n, d, env, more.Add(l, n1), l + 1) && more.Add(l, n1).Says(l, n1)
  {
    hide Typed, NoteAt;
    ExtendsAdd(more, l, n1);
    TypedGrows(a, n, more, more.Add(l, n1));
  }

  /** What was known stays known. */
  lemma Kept(a: seq<Item>, n: Note, d: int, env: Env, more: Env, l: nat, lab: nat, n1: Note)
    requires Suits(a, n, d, env, more, l) && env.Says(lab, n1)
    ensures more.Says(lab, n1)
  {
  }

  lemma {:induction false} LogicSuits(isAnd: bool, a: Expr, b: Expr, sc: Scope, l: nat, k: nat, n: Note, env: Env) returns (more: Env)
    requires Ready(n, env) && Below(env, l)
    ensures Suits(GenExpr(Logic(isAnd, a, b), sc, l, k), n, 1, env, more, l + ExprLabels(Logic(isAnd, a, b)))
    decreases Logic(isAnd, a, b), 0
  {
    hide Suits, Settled, Below, Moves, Plain, Env.Says;
    var end, k1 := l + ExprLabels(a), k + |ExprConsts(a)|;
    var ga, gb, skip := GenExpr(a, sc, l, k), GenExpr(b, sc, end + 1, k1), if isAnd then JumpIfFalse else JumpIfTrue;
    var env1 := ExprSuits(a, sc, l, k, n, env);
    var env2 := env1.Add(end, Up(n, 1));
    var left := ga + [Op(Dup, 0), Ref(skip, end), Op(Pop, 0)];
    LogicLeft(ga, skip, end, n, env, env1);
    StillReady(n, 0, env, env2, end + 1, left);
    more := ExprSuits(b, sc, end + 1, k1, Up(n, 0), env2);
    Kept(gb, n, 1, env2, more, end + 1 + ExprLabels(b), end, Up(n, 1));
    Chain(left, gb, n, 0, 1, env, env2, more, end + 1, end + 1 + ExprLabels(b));
    MarkThen(left + gb, end, n, 1, env, more, end + 1 + ExprLabels(b));
    assert left + gb + [Mark(end)] == LogicCode(ga, isAnd, end, gb);
  }

  /** The left operand, its copy, the jump over the right one, and the pop. */
  lemma LogicLeft(ga: seq<Item>, skip: Opcode, end: nat, n: Note, env: Env, env1: Env)
    requires Ready(n, env) && Suits(ga, n, 1, env, env1, end) && skip in {JumpIfTrue, JumpIfFalse}
    ensures var env2 := env1.Add(end, Up(n, 1));
            Suits(ga + [Op(Dup, 0), Ref(skip, end), Op(Pop, 0)], n, 0, env, env2, end + 1) && env2.Says(end, Up(n, 1))
  {
    hide Suits, Settled, Below, Moves, Plain, Env.Says;
    Learn(ga, n, 1, env, env1, end, Up(n, 1));
    var env2 := env1.Add(end, Up(n, 1));
    StackOps();
    Then(ga, Op(Dup, 0), n, 1, env, env2, end + 1);
    JumpThen(ga + [Op(Dup, 0)], skip, end, n, 2, env, env2, end + 1);
    Then(ga + [Op(Dup, 0)] + [Ref(skip, end)], Op(Pop, 0), n, 1, env, env2, end + 1);
    assert ga + [Op(Dup, 0)] + [Ref(skip, end)] + [Op(Pop, 0)] == ga + [Op(Dup, 0), Ref(skip, end), Op(Pop, 0)];
  }

  lemma BumpMoves(up: bool)
    ensures var bump := Op(if up then Inc else Dec, 0); Plain(bump) && Moves(bump) == 0 && Takes(bump) == 1
  {
  }

  lemma StackOps()
    ensures Plain(Op(Dup, 0)) && Moves(Op(Dup, 0)) == 1
    ensures Plain(Op(Pop, 0)) && Moves(Op(Pop, 0)) == -1
    ensures Plain(Op(ConstNull, 0)) && Moves(Op(ConstNull, 0)) == 1
  {
  }

  // ----- statements -----

  lemma OptSuits(e: Option<Expr>, sc: Scope, l: nat, k: nat, n: Note, env: Env) returns (more: Env)
    requires Ready(n, env) && Below(env, l)
    ensures Suits(GenOpt(e, sc, l, k), n, 1, env, more, l + OptLabels(e))
  {
    hide Suits, Settled, Below, Moves, Plain;
    if e.Some? {
      more := ExprSuits(e.value, sc, l, k, n, env);
    } else {
      more := env;
      StackOps();
      Single(Op(ConstNull, 0), n, env, l);
    }
  }

  /** A variable is bound to the value on top, which is popped. */
  lemma DeclareThen(a: seq<Item>, x: Name, sc: Scope, n: Note, env: Env, more: Env, l: nat)
    requires Suits(a, n, 1, env, more, l) && Ready(n, env)
    ensures Suits(a + GenDeclare(x, sc), n, 0, env, more, l)
  {
    hide Suits, Settled;
    match sc
    case Global =>
      Then(a, Op(DeclareGlobal, x), n, 1, env, more, l);
      Then(a + [Op(DeclareGlobal, x)], Op(StoreGlobal, x), n, 1, env, more, l);
      Then(a + [Op(DeclareGlobal, x)] + [Op(StoreGlobal, x)], Op(Pop, 0), n, 1, env, more, l);
      assert a + [Op(DeclareGlobal, x)] + [Op(StoreGlobal, x)] + [Op(Pop, 0)] == a + GenDeclare(x, sc);
    case Local(ns) =>
      Then(a, Op(StoreLocal, |ns|), n, 1, env, more, l);
      Then(a + [Op(StoreLocal, |ns|)], Op(Pop, 0), n, 1, env, more, l);
      assert a + [Op(StoreLocal, |ns|)] + [Op(Pop, 0)] == a + GenDeclare(x, sc);
  }

  lemma {:induction false} DeclsSuit(ds: List<Decl>, sc: Scope, l: nat, k: nat, n: Note, env: Env) returns (more: Env)
    requires Ready(n, env) && Below(env, l)
    ensures Suits(GenDecls(ds, sc, l, k), n, 0, env, more, l + DeclsLabels(ds))
    decreases ds
  {
    hide Suits, Settled, Below, GenOpt, GenDeclare, OptLabels, OptConsts;
    match ds
    case Nil =>
      more := env;
      Empty(n, env, l);
    case Cons(d, rest) =>
      var m, k1 := l + OptLabels(d.init), k + |OptConsts(d.init)|;
      var g := GenOpt(d.init, sc, l, k) + GenDeclare(d.name, sc);
      var env1 := OptSuits(d.init, sc, l, k, n, env);
      DeclareThen(GenOpt(d.init, sc, l, k), d.name, sc, n, env, env1, m);
      StillReady(n, 0, env, env1, m, g);
      more := DeclsSuit(rest, sc.Declare(d.name), m, k1, n, env1);
      Chain(g, GenDecls(rest, sc.Declare(d.name), m, k1), n, 0, 0, env, env1, more, m, m + DeclsLabels(rest));
  }

  /** The targets of the enclosing loop expect the `try`s around the loop. */
  ghost predicate LoopSuits(lp: Option<Loop>, n: Note, env: Env) {
    lp.Some? ==>
      && lp.value.tries <= |n.nest|
      && var out := Note(n.nest[..|n.nest| - lp.value.tries], 0, n.height);
         env.Says(lp.value.breakTo, out) && env.Says(lp.value.continueTo, out)
  }

  lemma LoopKept(lp: Option<Loop>, n: Note, env: Env, more: Env)
    requires LoopSuits(lp, n, env) && Extends(env, more)
    ensures LoopSuits(lp, n, more)
  {
  }

  /** Inside a `try` the loop is one `try` further away. */
  lemma LoopDeeper(lp: Option<Loop>, n: Note, env: Env, l: nat)
    requires LoopSuits(lp, n, env)
    ensures LoopSuits(Deeper(lp), Note(n.nest + [l], 0, n.height), env)
  {
    if lp.Some? {
      var t := lp.value.tries;
      assert (n.nest + [l])[..|n.nest + [l]| - (t + 1)] == n.nest[..|n.nest| - t];
    }
  }

  lemma {:induction false} PopsFit(t: nat, n: Note, env: Env)
    requires Ready(n, env) && t <= |n.nest|
    ensures Typed(PopTries(t), n, env) && End(PopTries(t), n) == Note(n.nest, t, n.height)
  {
    hide Typed, NoteAt, Settled, Fits, After1;
    if t > 0 {
      PopsFit(t - 1, n, env);
      assert PopTries(t - 1) + [Op(PopTry, 0)] == PopTries(t);
      PopFits(n.(popped := t - 1), env);
      TypedThen(PopTries(t - 1), Op(PopTry, 0), n, env);
    } else {
      assert PopTries(0) == [];
      TypedNone(n, env);
    }
  }

  lemma PopFits(n: Note, env: Env)
    requires Settled(n.nest, n.height, env) && n.popped < |n.nest| && n.height >= 0
    ensures Fits(Op(PopTry, 0), n, env) && After1(Op(PopTry, 0), n) == n.(popped := n.popped + 1)
  {
  }

  lemma LeaveSuits(lp: Option<Loop>, target: nat, n: Note, env: Env, l: nat)
    requires Ready(n, env) && Below(env, l) && lp.Some? && LoopSuits(lp, n, env)
    requires target == lp.value.breakTo || target == lp.value.continueTo
    ensures Suits(LeaveTo(lp, target), n, 0, env, env, l)
  {
    hide Typed, NoteAt;
    PopsFit(lp.value.tries, n, env);
    TypedThen(PopTries(lp.value.tries), Ref(Jump, target), n, env);
  }

  lemma {:induction false} StmtSuits(s: Stmt, sc: Scope, lp: Option<Loop>, l: nat, k: nat, f: bool, n: Note, env: Env) returns (more: Env)
    requires Ready(n, env) && Below(env, l) && LoopSuits(lp, n, env)
    requires WellPlaced(s, f, lp.Some?) && |n.nest| + StmtTries(s) <= env.depth
    ensures Suits(GenStmt(s, sc, lp, l, k), n, 0, env, more, l + StmtLabels(s))
    decreases s, 1
  {
    hide Suits, Settled, Below, Typed, Moves, Plain, LoopSuits, LeaveTo, GenExpr, GenDecls, GenDeclare;
    hide IfCode, WhileCode, ForCode, TryCode, GenBlock, GenElse;
    match s
    case ExprStmt(e) =>
      StackOps();
      more := ExprSuits(e, sc, l, k, n, env);
      Then(GenExpr(e, sc, l, k), Op(Pop, 0), n, 1, env, more, l + ExprLabels(e));
    case Let(ds) => more := DeclsSuit(ds, sc, l, k, n, env);
    case If(c, t, els) => more := IfSuits(s, sc, lp, l, k, f, n, env);
    case While(c, body) => more := WhileSuits(s, sc, lp, l, k, f, n, env);
    case For(init, c, step, body) => more := ForSuits(s, sc, lp, l, k, f, n, env);
    case Break =>
      more := env;
      LeaveSuits(lp, lp.value.breakTo, n, env, l);
    case Continue =>
      more := env;
      LeaveSuits(lp, lp.value.continueTo, n, env, l);
    case Return(v) =>
      EndOps();
      more := OptSuits(v, sc, l, k, n, env);
      Then(GenOpt(v, sc, l, k), Op(Ret, 0), n, 1, env, more, l + OptLabels(v));
    case Throw(e) =>
      EndOps();
      more := ExprSuits(e, sc, l, k, n, env);
      Then(GenExpr(e, sc, l, k), Op(ThrowOp, 0), n, 1, env, more, l + ExprLabels(e));
    case Try(body, name, handler) => more := TrySuits(s, sc, lp, l, k, f, n, env);
    case Fun(_, d) =>
      EndOps();
      more := env;
      Single(Op(LoadConst, k), n, env, l);
      DeclareThen([Op(LoadConst, k)], d.name, sc, n, env, env, l);
  }

  lemma EndOps()
    ensures Plain(Op(Ret, 0)) && Moves(Op(Ret, 0)) == -1
    ensures Plain(Op(ThrowOp, 0)) && Moves(Op(ThrowOp, 0)) == -1
    ensures Plain(Op(Halt, 0)) && Moves(Op(Halt, 0)) == 0
    ensures forall k :: Plain(Op(LoadConst, k)) && Moves(Op(LoadConst, k)) == 1
  {
  }

  lemma {:induction false} BlockSuits(ss: List<Stmt>, sc: Scope, lp: Option<Loop>, l: nat, k: nat, f: bool, n: Note, env: Env) returns (more: Env)
    requires Ready(n, env) && Below(env, l) && LoopSuits(lp, n, env)
    requires BlockWellPlaced(ss, f, lp.Some?) && |n.nest| + BlockTries(ss) <= env.depth
    ensures Suits(GenBlock(ss, sc, lp, l, k), n, 0, env, more, l + BlockLabels(ss))
    decreases ss, 1
  {
    hide Suits, Settled, Below, LoopSuits, GenStmt, StmtLabels, StmtConsts;
    match ss
    case Nil =>
      more := env;
      Empty(n, env, l);
    case Cons(s, rest) =>
      var m, k1 := l + StmtLabels(s), k + |StmtConsts(s)|;
      var env1 := StmtSuits(s, sc, lp, l, k, f, n, env);
      Inner(n, env, env1, m, GenStmt(s, sc, lp, l, k), lp);
      more := BlockSuits(rest, After(s, sc), lp, m, k1, f, n, env1);
      Chain(GenStmt(s, sc, lp, l, k), GenBlock(rest, After(s, sc), lp, m, k1), n, 0, 0, env, env1, more, m, m + BlockLabels(rest));
  }

  /** After a piece that leaves the height alone everything is as before. */
  lemma Inner(n: Note, env: Env, more: Env, l: nat, g: seq<Item>, lp: Option<Loop>)
    requires Ready(n, env) && LoopSuits(lp, n, env) && Suits(g, n, 0, env, more, l)
    ensures Ready(n, more) && Below(more, l) && LoopSuits(lp, n, more) && more.depth == env.depth
  {
    StillReady(n, 0, env, more, l, g);
    LoopKept(lp, n, env, more);
  }

  lemma {:induction false} ElseSuits(els: Else, sc: Scope, lp: Option<Loop>, l: nat, k: nat, f: bool, n: Note, env: Env) returns (more: Env)
    requires Ready(n, env) && Below(env, l) && LoopSuits(lp, n, env)
    requires ElseWellPlaced(els, f, lp.Some?) && |n.nest| + ElseTries(els) <= env.depth
    ensures Suits(GenElse(els, sc, lp, l, k), n, 0, env, more, l + ElseLabels(els))
    decreases els, 1
  {
    hide Suits, Settled, Below, LoopSuits, GenStmt, GenBlock;
    match els
    case NoElse =>
      more := env;
      Empty(n, env, l);
    case ElseIf(s) => more := StmtSuits(s, sc, lp, l, k, f, n, env);
    case ElseBlock(body) => more := BlockSuits(body, sc, lp, l, k, f, n, env);
  }

  /** The labels of a construct are known before its parts. */
  lemma Rebase(g: seq<Item>, n: Note, d: int, env: Env, env0: Env, more: Env, l: nat)
    requires Extends(env, env0) && Suits(g, n, d, env0, more, l)
    ensures Suits(g, n, d, env, more, l)
  {
    ExtendsTrans(env, env0, more);
  }

  lemma TwoLabels(n: Note, lp: Option<Loop>, env: Env, l: nat) returns (env0: Env)
    requires Ready(n, env) && Below(env, l) && LoopSuits(lp, n, env)
    ensures Extends(env, env0) && Below(env0, l + 2) && Ready(n, env0) && LoopSuits(lp, n, env0) && env0.depth == env.depth
    ensures env0.Says(l, n) && env0.Says(l + 1, n) && Up(n, 0) == n
  {
    env0 := env.Add(l, n).Add(l + 1, n);
    ExtendsAdd(env, l, n);
    ExtendsAdd(env.Add(l, n), l + 1, n);
    ExtendsTrans(env, env.Add(l, n), env0);
    SettledGrows(n.nest, n.height, env, env0);
    LoopKept(lp, n, env, env0);
  }

  /** What a condition with its jump leaves. */
  lemma CondSuits(c: Expr, sc: Scope, lab: nat, l: nat, k: nat, n: Note, env: Env) returns (more: Env)
    requires Ready(n, env) && Below(env, l) && env.Says(lab, n)
    ensures Suits(GenExpr(c, sc, l, k) + [Ref(JumpIfFalse, lab)], n, 0, env, more, l + ExprLabels(c))
  {
    hide Suits, Settled, Below, GenExpr;
    more := ExprSuits(c, sc, l, k, n, env);
    assert Up(n, 0) == n;
    JumpThen(GenExpr(c, sc, l, k), JumpIfFalse, lab, n, 1, env, more, l + ExprLabels(c));
  }

  lemma {:induction false} IfSuits(s: Stmt, sc: Scope, lp: Option<Loop>, l: nat, k: nat, f: bool, n: Note, env: Env) returns (more: Env)
    requires Ready(n, env) && Below(env, l) && LoopSuits(lp, n, env) && s.If?
    requires WellPlaced(s, f, lp.Some?) && |n.nest| + StmtTries(s) <= env.depth
    ensures Suits(GenStmt(s, sc, lp, l, k), n, 0, env, more, l + StmtLabels(s))
    decreases s, 0
  {
    hide Suits, Settled, Below, LoopSuits, Extends, Env.Says, GenExpr, GenBlock, GenElse, ExprLabels, BlockLabels, ElseLabels;
    var l1, k1 := l + 2 + ExprLabels(s.cond), k + |ExprConsts(s.cond)|;
    var l2, k2 := l1 + BlockLabels(s.thn), k1 + |BlockConsts(s.thn)|;
    var l3 := l2 + ElseLabels(s.els);
    var gc, gt, ge := GenExpr(s.cond, sc, l + 2, k), GenBlock(s.thn, sc, lp, l1, k1), GenElse(s.els, sc, lp, l2, k2);
    var env0 := TwoLabels(n, lp, env, l);
    var env1 := CondSuits(s.cond, sc, l, l + 2, k, n, env0);
    var g := gc + [Ref(JumpIfFalse, l)];
    Inner(n, env0, env1, l1, g, lp);
    var env2 := BlockSuits(s.thn, sc, lp, l1, k1, f, n, env1);
    Chain(g, gt, n, 0, 0, env0, env1, env2, l1, l2);
    GotoThen(g + gt, l + 1, n, 0, env0, env2, l2);
    MarkThen(g + gt + [Ref(Jump, l + 1)], l, n, 0, env0, env2, l2);
    var h := g + gt + [Ref(Jump, l + 1)] + [Mark(l)];
    Inner(n, env0, env2, l2, h, lp);
    more := ElseSuits(s.els, sc, lp, l2, k2, f, n, env2);
    Chain(h, ge, n, 0, 0, env0, env2, more, l2, l3);
    MarkThen(h + ge, l + 1, n, 0, env0, more, l3);
    assert h == g + gt + [Ref(Jump, l + 1), Mark(l)];
    assert h + ge + [Mark(l + 1)] == IfCode(gc, gt, ge, l);
    Rebase(h + ge + [Mark(l + 1)], n, 0, env, env0, more, l3);
  }

  lemma {:induction false} WhileSuits(s: Stmt, sc: Scope, lp: Option<Loop>, l: nat, k: nat, f: bool, n: Note, env: Env) returns (more: Env)
    requires Ready(n, env) && Below(env, l) && LoopSuits(lp, n, env) && s.While?
    requires WellPlaced(s, f, lp.Some?) && |n.nest| + StmtTries(s) <= env.depth
    ensures Suits(GenStmt(s, sc, lp, l, k), n, 0, env, more, l + StmtLabels(s))
    decreases s, 0
  {
    hide Suits, Settled, Below, LoopSuits, Extends, Env.Says, GenExpr, GenBlock, ExprLabels, BlockLabels;
    var l1, k1 := l + 2 + ExprLabels(s.cond), k + |ExprConsts(s.cond)|;
    var l2 := l1 + BlockLabels(s.body);
    var lp1 := Some(Loop(l + 1, l, 0));
    var gc, gb := GenExpr(s.cond, sc, l + 2, k), GenBlock(s.body, sc, lp1, l1, k1);
    var env0 := TwoLabels(n, lp, env, l);
    OwnLoop(l + 1, l, n, env0);
    Empty(n, env0, l + 2);
    MarkThen([], l, n, 0, env0, env0, l + 2);
    var env1 := CondSuits(s.cond, sc, l + 1, l + 2, k, n, env0);
    var g := [] + [Mark(l)] + (gc + [Ref(JumpIfFalse, l + 1)]);
    Chain([] + [Mark(l)], gc + [Ref(JumpIfFalse, l + 1)], n, 0, 0, env0, env0, env1, l + 2, l1);
    Inner(n, env0, env1, l1, g, lp1);
    more := BlockSuits(s.body, sc, lp1, l1, k1, f, n, env1);
    Chain(g, gb, n, 0, 0, env0, env1, more, l1, l2);
    GotoThen(g + gb, l, n, 0, env0, more, l2);
    MarkThen(g + gb + [Ref(Jump, l)], l + 1, n, 0, env0, more, l2);
    assert g == [Mark(l)] + gc + [Ref(JumpIfFalse, l + 1)];
    assert g + gb + [Ref(Jump, l)] + [Mark(l + 1)] == WhileCode(gc, gb, l);
    Rebase(WhileCode(gc, gb, l), n, 0, env, env0, more, l2);
  }

  lemma OwnLoop(breakTo: nat, continueTo: nat, n: Note, env: Env)
    requires n.popped == 0 && env.Says(breakTo, n) && env.Says(continueTo, n)
    ensures LoopSuits(Some(Loop(breakTo, continueTo, 0)), n, env)
  {
    assert n.nest[..|n.nest| - 0] == n.nest;
  }

  lemma {:induction false} ForSuits(s: Stmt, sc: Scope, lp: Option<Loop>, l: nat, k: nat, f: bool, n: Note, env: Env) returns (more: Env)
    requires Ready(n, env) && Below(env, l) && LoopSuits(lp, n, env) && s.For?
    requires WellPlaced(s, f, lp.Some?) && |n.nest| + StmtTries(s) <= env.depth
    ensures Suits(GenStmt(s, sc, lp, l, k), n, 0, env, more, l + StmtLabels(s))
    decreases s, 0
  {
    hide Suits, Settled, Below, LoopSuits, Extends, Env.Says, ForCode, GenBlock, GenTest, GenStep;
    hide BlockLabels, OptLabels, InitLabels, OptConsts, BlockConsts, InitConsts;
    var sc1 := AfterInit(s.init, sc);
    var l1, k1 := l + 4 + InitLabels(s.init), k + |InitConsts(s.init)|;
    var l2, k2 := l1 + OptLabels(s.test), k1 + |OptConsts(s.test)|;
    var l3, k3 := l2 + OptLabels(s.step), k2 + |OptConsts(s.step)|;
    var l4 := l3 + BlockLabels(s.body);
    var lp1 := Some(Loop(l + 1, l + 2, 0));
    var gi := if s.init.Some? then GenStmt(s.init.value, sc, lp, l + 4, k) else [];
    var env00 := TwoLabels(n, lp, env, l);
    var env0 := TwoLabels(n, lp, env00, l + 2);
    FourLabels(env, env00, env0, l, n);
    var env1 := InitSuits(s, sc, lp, l + 4, k, f, n, env0);
    Inner(n, env0, env1, l1, gi, lp);
    LabelsKept(env0, env1, l, n, gi, l1);
    OwnLoop(l + 1, l + 2, n, env1);
    var env2 := TestSuits(s.test, sc1, l1, k1, l + 1, n, env1);
    Inner(n, env1, env2, l2, GenTest(s.test, sc1, l1, k1, l + 1), lp1);
    var env3 := StepSuits(s.step, sc1, l2, k2, n, env2);
    Inner(n, env2, env3, l3, GenStep(s.step, sc1, l2, k2), lp1);
    more := BlockSuits(s.body, sc1, lp1, l3, k3, f, n, env3);
    var gt, gs, gb := GenTest(s.test, sc1, l1, k1, l + 1), GenStep(s.step, sc1, l2, k2), GenBlock(s.body, sc1, lp1, l3, k3);
    ForPieces(gt, gs, gb, l, n, env1, env2, env3, more, l1, l2, l3, l4);
    Chain(gi, ForCode(gt, gs, gb, l), n, 0, 0, env0, env1, more, l1, l4);
    Rebase(gi + ForCode(gt, gs, gb, l), n, 0, env, env0, more, l4);
  }

  lemma FourLabels(env: Env, env00: Env, env0: Env, l: nat, n: Note)
    requires Extends(env, env00) && Extends(env00, env0) && env00.Says(l, n) && env00.Says(l + 1, n)
    ensures Extends(env, env0) && env0.Says(l, n) && env0.Says(l + 1, n)
  {
  }

  lemma LabelsKept(env: Env, more: Env, l: nat, n: Note, g: seq<Item>, l1: nat)
    requires Suits(g, n, 0, env, more, l1)
    requires env.Says(l, n) && env.Says(l + 1, n) && env.Says(l + 2, n) && env.Says(l + 3, n)
    ensures more.Says(l, n) && more.Says(l + 1, n) && more.Says(l + 2, n) && more.Says(l + 3, n)
  {
  }

  lemma {:induction false} InitSuits(s: Stmt, sc: Scope, lp: Option<Loop>, l: nat, k: nat, f: bool, n: Note, env: Env) returns (more: Env)
    requires Ready(n, env) && Below(env, l) && LoopSuits(lp, n, env) && s.For?
    requires WellPlaced(s, f, lp.Some?) && |n.nest| + StmtTries(s) <= env.depth
    ensures Suits(if s.init.Some? then GenStmt(s.init.value, sc, lp, l, k) else [], n, 0, env, more, l + InitLabels(s.init))
    decreases s, 0, 0
  {
    hide Suits, Settled, Below, LoopSuits, GenStmt, StmtLabels;
    if s.init.Some? {
      more := StmtSuits(s.init.value, sc, lp, l, k, f, n, env);
    } else {
      more := env;
      Empty(n, env, l);
    }
  }

  lemma TestSuits(e: Option<Expr>, sc: Scope, l: nat, k: nat, end: nat, n: Note, env: Env) returns (more: Env)
    requires Ready(n, env) && Below(env, l) && env.Says(end, n)
    ensures Suits(GenTest(e, sc, l, k, end), n, 0, env, more, l + OptLabels(e))
  {
    hide Suits, Settled, Below, GenExpr, ExprLabels;
    if e.Some? {
      more := CondSuits(e.value, sc, end, l, k, n, env);
    } else {
      more := env;
      Empty(n, env, l);
    }
  }

  lemma StepSuits(e: Option<Expr>, sc: Scope, l: nat, k: nat, n: Note, env: Env) returns (more: Env)
    requires Ready(n, env) && Below(env, l)
    ensures Suits(GenStep(e, sc, l, k), n, 0, env, more, l + OptLabels(e))
  {
    hide Suits, Settled, Below, Moves, Plain, GenExpr, ExprLabels;
    if e.Some? {
      StackOps();
      more := ExprSuits(e.value, sc, l, k, n, env);
      Then(GenExpr(e.value, sc, l, k), Op(Pop, 0), n, 1, env, more, l + ExprLabels(e.value));
    } else {
      more := env;
      Empty(n, env, l);
    }
  }

  lemma ForPieces(gt: seq<Item>, gs: seq<Item>, gb: seq<Item>, l: nat, n: Note, env: Env, env2: Env, env3: Env, more: Env,
                  l1: nat, l2: nat, l3: nat, l4: nat)
    requires Ready(n, env) && Below(env, l1)
    requires env.Says(l, n) && env.Says(l + 1, n) && env.Says(l + 2, n) && env.Says(l + 3, n)
    requires Suits(gt, n, 0, env, env2, l2) && Suits(gs, n, 0, env2, env3, l3) && Suits(gb, n, 0, env3, more, l4)
    ensures Suits(ForCode(gt, gs, gb, l), n, 0, env, more, l4)
  {
    hide Suits, Settled, Below, Env.Says;
    assert Up(n, 0) == n;
    Empty(n, env, l1);
    MarkThen([], l, n, 0, env, env, l1);
    var g0 := [] + [Mark(l)];
    Chain(g0, gt, n, 0, 0, env, env, env2, l1, l2);
    GotoThen(g0 + gt, l + 3, n, 0, env, env2, l2);
    MarkThen(g0 + gt + [Ref(Jump, l + 3)], l + 2, n, 0, env, env2, l2);
    var g1 := g0 + gt + [Ref(Jump, l + 3)] + [Mark(l + 2)];
    Chain(g1, gs, n, 0, 0, env, env2, env3, l2, l3);
    GotoThen(g1 + gs, l, n, 0, env, env3, l3);
    MarkThen(g1 + gs + [Ref(Jump, l)], l + 3, n, 0, env, env3, l3);
    var g2 := g1 + gs + [Ref(Jump, l)] + [Mark(l + 3)];
    Chain(g2, gb, n, 0, 0, env, env3, more, l3, l4);
    GotoThen(g2 + gb, l + 2, n, 0, env, more, l4);
    MarkThen(g2 + gb + [Ref(Jump, l + 2)], l + 1, n, 0, env, more, l4);
    assert g1 == [Mark(l)] + gt + [Ref(Jump, l + 3), Mark(l + 2)];
    assert g2 == g1 + gs + [Ref(Jump, l), Mark(l + 3)];
    assert g2 + gb + [Ref(Jump, l + 2)] + [Mark(l + 1)] == ForCode(gt, gs, gb, l);
  }

  /** Inside a `try` body, and at its catch label. */
  function Inside(n: Note, l: nat): Note { Note(n.nest + [l], 0, n.height) }

  lemma TryLabels(n: Note, lp: Option<Loop>, env: Env, l: nat) returns (env0: Env)
    requires Ready(n, env) && Below(env, l) && LoopSuits(lp, n, env) && |n.nest| < env.depth
    ensures Extends(env, env0) && Below(env0, l + 2) && env0.depth == env.depth
    ensures Ready(n, env0) && Ready(Inside(n, l), env0) && LoopSuits(lp, n, env0) && LoopSuits(Deeper(lp), Inside(n, l), env0)
    ensures env0.Says(l, Inside(n, l)) && env0.Says(l + 1, n) && Up(n, 0) == n
  {
    var env1 := env.Add(l, Inside(n, l));
    env0 := env1.Add(l + 1, n);
    ExtendsAdd(env, l, Inside(n, l));
    ExtendsAdd(env1, l + 1, n);
    ExtendsTrans(env, env1, env0);
    SettledGrows(n.nest, n.height, env, env0);
    LoopKept(lp, n, env, env0);
    LoopDeeper(lp, n, env0, l);
    SettledInside(n, l, env0);
  }

  lemma SettledInside(n: Note, l: nat, env: Env)
    requires Settled(n.nest, n.height, env) && |n.nest| < env.depth && env.Says(l, Inside(n, l))
    ensures Settled(n.nest + [l], n.height, env)
  {
    var nest := n.nest + [l];
    forall j | 0 <= j < |nest|
      ensures nest[j] in env.labels && env.labels[nest[j]].nest == nest[..j + 1] && env.labels[nest[j]].height <= n.height
    {
      if j < |n.nest| {
        assert nest[..j + 1] == n.nest[..j + 1];
      } else {
        assert nest[..j + 1] == nest;
      }
    }
  }

  /** From `PushTry` to `Catch`. */
  lemma TryPrefix(gb: seq<Item>, l: nat, n: Note, env: Env)
    requires Ready(n, env) && Ready(Inside(n, l), env) && env.Says(l, Inside(n, l)) && env.Says(l + 1, n)
    requires Typed(gb, Inside(n, l), env) && End(gb, Inside(n, l)) == Inside(n, l)
    ensures var g := [Ref(PushTry, l)] + gb + [Op(PopTry, 0), Ref(Jump, l + 1), Mark(l), Op(Catch, 0)];
            Typed(g, n, env) && End(g, n) == Up(n, 1)
  {
    hide Typed, NoteAt, Settled;
    var c := Inside(n, l);
    var g0 := [Ref(PushTry, l)];
    TypedOne(Ref(PushTry, l), n, env);
    TypedConcat(g0, gb, n, env);
    PushPop(n, l, env);
    var g1 := g0 + gb;
    TypedThen(g1, Op(PopTry, 0), n, env);
    TypedThen(g1 + [Op(PopTry, 0)], Ref(Jump, l + 1), n, env);
    var g3 := g1 + [Op(PopTry, 0)] + [Ref(Jump, l + 1)];
    TypedThen(g3, Mark(l), n, env);
    TypedThen(g3 + [Mark(l)], Op(Catch, 0), n, env);
    assert g3 + [Mark(l)] + [Op(Catch, 0)] == g1 + [Op(PopTry, 0), Ref(Jump, l + 1), Mark(l), Op(Catch, 0)];
  }

  lemma PushPop(n: Note, l: nat, env: Env)
    requires Ready(n, env) && Ready(Inside(n, l), env) && env.Says(l, Inside(n, l)) && env.Says(l + 1, n)
    ensures var c := Inside(n, l);
            var p := Note(c.nest, 1, c.height);
            && After1(Ref(PushTry, l), n) == c
            && Fits(Op(PopTry, 0), c, env) && After1(Op(PopTry, 0), c) == p
            && Fits(Ref(Jump, l + 1), p, env) && After1(Ref(Jump, l + 1), p) == c
            && Fits(Mark(l), c, env) && After1(Mark(l), c) == c
            && Fits(Op(Catch, 0), c, env) && After1(Op(Catch, 0), c) == Up(n, 1)
  {
    hide Settled;
    assert (n.nest + [l])[..|n.nest|] == n.nest;
  }

  lemma CatchSuits(a: seq<Item>, name: Option<Name>, sc: Scope, n: Note, env: Env, more: Env, l: nat)
    requires Suits(a, n, 1, env, more, l) && Ready(n, env)
    ensures Suits(a + GenCatch(name, sc), n, 0, env, more, l)
  {
    hide Suits, Settled, Moves, Plain;
    StackOps();
    if name.Some? {
      DeclareThen(a, name.value, sc, n, env, more, l);
    } else {
      Then(a, Op(Pop, 0), n, 1, env, more, l);
    }
  }

  lemma {:induction false} TrySuits(s: Stmt, sc: Scope, lp: Option<Loop>, l: nat, k: nat, f: bool, n: Note, env: Env) returns (more: Env)
    requires Ready(n, env) && Below(env, l) && LoopSuits(lp, n, env) && s.Try?
    requires WellPlaced(s, f, lp.Some?) && |n.nest| + StmtTries(s) <= env.depth
    ensures Suits(GenStmt(s, sc, lp, l, k), n, 0, env, more, l + StmtLabels(s))
    decreases s, 0
  {
    hide Suits, Settled, Below, LoopSuits, Extends, Env.Says, GenBlock, BlockLabels, GenCatch, BlockConsts;
    var l1, k1 := l + 2 + BlockLabels(s.body), k + |BlockConsts(s.body)|;
    var l2 := l1 + BlockLabels(s.handler);
    var gb, gn := GenBlock(s.body, sc, Deeper(lp), l + 2, k), GenCatch(s.name, sc);
    var gh := GenBlock(s.handler, CatchScope(s.name, sc), lp, l1, k1);
    var env0 := TryLabels(n, lp, env, l);
    var env1 := BlockSuits(s.body, sc, Deeper(lp), l + 2, k, f, Inside(n, l), env0);
    var g := [Ref(PushTry, l)] + gb + [Op(PopTry, 0), Ref(Jump, l + 1), Mark(l), Op(Catch, 0)];
    TryFront(gb, l, n, env0, env1, l1);
    CatchSuits(g, s.name, sc, n, env0, env1, l1);
    Inner(n, env0, env1, l1, g + gn, lp);
    more := BlockSuits(s.handler, CatchScope(s.name, sc), lp, l1, k1, f, n, env1);
    Chain(g + gn, gh, n, 0, 0, env0, env1, more, l1, l2);
    MarkThen(g + gn + gh, l + 1, n, 0, env0, more, l2);
    assert g + gn + gh + [Mark(l + 1)] == TryCode(gb, gn, gh, l);
    Rebase(TryCode(gb, gn, gh, l), n, 0, env, env0, more, l2);
  }

  lemma TryFront(gb: seq<Item>, l: nat, n: Note, env: Env, more: Env, l1: nat)
    requires Ready(n, env) && Ready(Inside(n, l), env) && env.Says(l, Inside(n, l)) && env.Says(l + 1, n)
    requires Suits(gb, Inside(n, l), 0, env, more, l1)
    ensures Suits([Ref(PushTry, l)] + gb + [Op(PopTry, 0), Ref(Jump, l + 1), Mark(l), Op(Catch, 0)], n, 1, env, more, l1)
  {
    hide Typed, NoteAt, Settled, Fits;
    SettledGrows(n.nest, n.height, env, more);
    SettledGrows(n.nest + [l], n.height, env, more);
    TryPrefix(gb, l, n, more);
  }

  // ----- whole functions and modules -----

  const START: Note := Note([], 0, 0)

  /** Complete code in which every label that anything refers to is marked. */
  ghost predicate Charted(items: seq<Item>, env: Env) {
    && MarkedOnce(items) && Typed(items, START, env)
    && items != [] && (items[|items| - 1] == Op(Halt, 0) || items[|items| - 1] == Op(Ret, 0))
    && forall l :: l in env.labels ==> Mark(l) in items
  }

  lemma ModuleCharted(body: List<Stmt>) returns (env: Env)
    requires BlockWellPlaced(body, false, false)
    ensures Charted(GenModule(body), env) && env.depth == BlockTries(body)
  {
    hide GenBlock, BlockLabels, Typed, MarkedOnce, BlockTries, BlockWellPlaced, Count;
    var env0 := Env(map[], BlockTries(body));
    env := BlockSuits(body, Global, None, 0, 0, false, START, env0);
    EndOps();
    Then(GenBlock(body, Global, None, 0, 0), Op(Halt, 0), START, 0, env0, env, BlockLabels(body));
    ModuleMarkedOnce(body);
    forall l | l in env.labels
      ensures Mark(l) in GenModule(body)
    {
      ModuleMarks(body, l);
      MarkedIfCounted(GenModule(body), l);
    }
  }

  lemma FunCharted(d: FunDecl) returns (env: Env)
    requires BlockWellPlaced(d.body, true, false)
    ensures Charted(GenFun(d), env) && env.depth == BlockTries(d.body)
  {
    hide GenBlock, BlockLabels, Typed, MarkedOnce, BlockTries, BlockWellPlaced, Count, NoteAt, Moves, Plain;
    var slots: nat := BodySlots(d) - |d.params|;
    var env00 := Env(map[], BlockTries(d.body));
    var env0 := env00.Add(0, START);
    var n := Up(START, slots);
    ExtendsAdd(env00, 0, START);
    var pre := [Mark(0)] + [Op(AllocateLocals, slots)];
    EndOps();
    assert Ready(START, env0) && Ready(n, env0);
    FunStart(slots, env0);
    env := BlockSuits(d.body, Local(d.params), None, 1, 0, true, n, env0);
    var g := GenBlock(d.body, Local(d.params), None, 1, 0);
    TypedGrows(pre, START, env0, env);
    TypedConcat(pre, g, START, env);
    var h := pre + g;
    assert Up(n, 0) == n;
    StackOps();
    assert Ready(START, env);
    PlainThen(h, Op(ConstNull, 0), START, slots, env);
    PlainThen(h + [Op(ConstNull, 0)], Op(Ret, 0), START, slots + 1, env);
    assert pre == [Mark(0), Op(AllocateLocals, slots)];
    assert h + [Op(ConstNull, 0)] + [Op(Ret, 0)] == GenFun(d);
    FunMarkedOnce(d);
    forall l | l in env.labels
      ensures Mark(l) in GenFun(d)
    {
      FunMarks(d, l);
      MarkedIfCounted(GenFun(d), l);
    }
  }

  lemma MarkSuits(l: nat, n: Note, env: Env)
    requires Ready(n, env) && env.Says(l, n)
    ensures Typed([Mark(l)], n, env) && End([Mark(l)], n) == Up(n, 0)
  {
    hide Settled;
    TypedOne(Mark(l), n, env);
  }

  lemma FunStart(slots: nat, env: Env)
    requires Ready(START, env) && env.Says(0, START)
    ensures var pre := [Mark(0)] + [Op(AllocateLocals, slots)]; Typed(pre, START, env) && End(pre, START) == Up(START, slots)
  {
    hide Typed, NoteAt, Settled, Moves, Plain, Env.Says;
    MarkSuits(0, START, env);
    AllocateMoves(slots);
    PlainThen([Mark(0)], Op(AllocateLocals, slots), START, 0, env);
  }

  lemma AllocateMoves(slots: nat)
    ensures Plain(Op(AllocateLocals, slots)) && Moves(Op(AllocateLocals, slots)) == slots
  {
  }

  /** The note of a label is the note of its place. */
  lemma LabelNote(items: seq<Item>, env: Env, l: nat) returns (j: nat)
    requires Charted(items, env) && l in env.labels
    ensures j < |items| && items[j] == Mark(l) && Addr(items, l) == Pos(items, j)
    ensures NoteAt(items, START, j) == env.labels[l] && env.labels[l].popped == 0
  {
    hide NoteAt, MarkedOnce;
    j := MarkIndex(items, l).value;
    assert Fits(items[j], NoteAt(items, START, j), env);
  }
}
