/** Meaning preservation: the bytecode of a structured program, executed step by step,
    does what direct evaluation of the program says. */
module Simulation {
  import opened Syntax
  import opened Values
  import opened Assembly
  import opened Codegen
  import opened Machine
  import opened Semantics
  import opened Labels
  import opened Layout
  import opened Activation
  import opened Outcomes

  /** The activation, the program and the store an expression is evaluated in. */
  ghost predicate Ready(p: Program, c: Ctx, sc: Scope, st: Store) {
    c.Valid() && Good(p) && Compiled(p, c.img) && Fits(c, sc, st)
  }

  // ----- expressions -----

  lemma LiteralCorrect(p: Program, c: Ctx, fuel: nat, lit: Literal, sc: Scope, st: Store,
                       ops: seq<Value>, tries: seq<nat>, l: nat, k: nat, i: nat)
    returns (n: nat, junk: seq<Value>)
    requires Ready(p, c, sc, st)
    requires Part(c.items, i, GenExpr(Const(lit), sc, l, k)) && Pool(c.consts, k, ExprConsts(Const(lit)))
    ensures i + 1 <= |c.items|
    ensures ExprPost(c, Val(LiteralValue(p, lit), st), |st.locals|, c.At(st, ops, tries, i), ops, tries, i + 1, fuel, n, junk)
  {
    hide Run, Ctx.Valid, Ctx.ConfigAt, Ctx.RaiseAt, Pos, Good, MarkedOnce;
    Item0(c.items, i, [GenLiteral(lit, k)], 0);
    if lit.IntLit? {
      assert c.consts[k..k + 1][0] == c.consts[k];
    }
    StepPush(c, st, ops, tries, i, p, lit, k);
    n, junk := 1, [];
  }

  lemma VarCorrect(p: Program, c: Ctx, fuel: nat, x: Name, sc: Scope, st: Store,
                   ops: seq<Value>, tries: seq<nat>, i: nat)
    returns (n: nat, junk: seq<Value>)
    requires Ready(p, c, sc, st) && i < |c.items| && c.items[i] == Load(x, sc)
    ensures ExprPost(c, ReadVar(p, x, sc, st), |st.locals|, c.At(st, ops, tries, i), ops, tries, i + 1, fuel, n, junk)
  {
    hide Run, Ctx.Valid, Ctx.ConfigAt, Ctx.RaiseAt, Pos, Good, MarkedOnce, Load, LastIndex, Unwind;
    StepLoad(c, st, ops, tries, i, p, x, sc);
    assert ops + [] == ops;
    n, junk := 1, [];
  }

  lemma AssignCorrect(p: Program, c: Ctx, fuel: nat, x: Name, e1: Expr, sc: Scope, st: Store,
                      ops: seq<Value>, tries: seq<nat>, l: nat, k: nat, i: nat)
    returns (n: nat, junk: seq<Value>)
    requires Ready(p, c, sc, st)
    requires Part(c.items, i, GenExpr(Assign(x, e1), sc, l, k)) && Pool(c.consts, k, ExprConsts(Assign(x, e1)))
    ensures ExprPost(c, EvalExpr(p, c.Depth(), fuel, Assign(x, e1), sc, st), |st.locals|, c.At(st, ops, tries, i),
                     ops, tries, i + |GenExpr(Assign(x, e1), sc, l, k)|, fuel, n, junk)
    decreases fuel, Assign(x, e1), 0
  {
    hide Run, Ctx.Valid, Ctx.ConfigAt, Ctx.RaiseAt, Pos, Good, Compiled, MarkedOnce, Codegen.Store, LastIndex, Unwind, Part, Pool;
    PartFits(c.items, i, GenExpr(Assign(x, e1), sc, l, k));
    var g := GenExpr(e1, sc, l, k);
    Split(c.items, i, g, [Codegen.Store(x, sc)]);
    Item0(c.items, i + |g|, [Codegen.Store(x, sc)], 0);
    n, junk := ExprCorrect(p, c, fuel, e1, sc, st, ops, tries, l, k, i);
    var r := EvalExpr(p, c.Depth(), fuel, e1, sc, st);
    if r.Val? {
      StepStore(c, r.st, ops, r.v, tries, i + |g|, x, sc);
      RunAdd(c.img, c.At(st, ops, tries, i), n, 1);
      n := n + 1;
    }
  }

  lemma UnaryCorrect(p: Program, c: Ctx, fuel: nat, op: UnOp, e1: Expr, sc: Scope, st: Store,
                     ops: seq<Value>, tries: seq<nat>, l: nat, k: nat, i: nat)
    returns (n: nat, junk: seq<Value>)
    requires Ready(p, c, sc, st)
    requires Part(c.items, i, GenExpr(Unary(op, e1), sc, l, k)) && Pool(c.consts, k, ExprConsts(Unary(op, e1)))
    ensures ExprPost(c, EvalExpr(p, c.Depth(), fuel, Unary(op, e1), sc, st), |st.locals|, c.At(st, ops, tries, i),
                     ops, tries, i + |GenExpr(Unary(op, e1), sc, l, k)|, fuel, n, junk)
    decreases fuel, Unary(op, e1), 0
  {
    hide Run, Ctx.Valid, Ctx.ConfigAt, Ctx.RaiseAt, Pos, Good, Compiled, MarkedOnce, Unwind, ApplyUnary, ApplyBump, Part, Pool;
    PartFits(c.items, i, GenExpr(Unary(op, e1), sc, l, k));
    var g := GenExpr(e1, sc, l, k);
    Split(c.items, i, g, [Op(Un(op), 0)]);
    Item0(c.items, i + |g|, [Op(Un(op), 0)], 0);
    n, junk := ExprCorrect(p, c, fuel, e1, sc, st, ops, tries, l, k, i);
    var r := EvalExpr(p, c.Depth(), fuel, e1, sc, st);
    if r.Val? {
      StepUn(c, r.st, ops, r.v, tries, i + |g|);
      RunAdd(c.img, c.At(st, ops, tries, i), n, 1);
      OpPost(c, ApplyUnary(op, r.v), r.st, c.At(st, ops, tries, i), ops, tries, i + |g| + 1, fuel, n + 1);
      n, junk := n + 1, [];
    }
  }

  lemma BumpCorrect(p: Program, c: Ctx, fuel: nat, x: Name, up: bool, sc: Scope, st: Store,
                    ops: seq<Value>, tries: seq<nat>, l: nat, k: nat, i: nat)
    returns (n: nat, junk: seq<Value>)
    requires Ready(p, c, sc, st)
    requires Part(c.items, i, GenExpr(Bump(x, up), sc, l, k))
    ensures ExprPost(c, EvalExpr(p, c.Depth(), fuel, Bump(x, up), sc, st), |st.locals|, c.At(st, ops, tries, i),
                     ops, tries, i + |GenExpr(Bump(x, up), sc, l, k)|, fuel, n, junk)
  {
    hide Run, Ctx.Valid, Ctx.ConfigAt, Ctx.RaiseAt, Pos, Good, Compiled, MarkedOnce, Load, Codegen.Store, LastIndex, Unwind, ApplyBump, Part, Pool;
    PartFits(c.items, i, GenExpr(Bump(x, up), sc, l, k));
    var g := GenExpr(Bump(x, up), sc, l, k);
    assert g == [Load(x, sc), Op(Dup, 0), Op(if up then Inc else Dec, 0), Codegen.Store(x, sc), Op(Pop, 0)];
    Item0(c.items, i, g, 0);
    Item0(c.items, i, g, 1);
    Item0(c.items, i, g, 2);
    Item0(c.items, i, g, 3);
    Item0(c.items, i, g, 4);
    var s := c.At(st, ops, tries, i);
    n, junk := VarCorrect(p, c, fuel, x, sc, st, ops, tries, i);
    var r := ReadVar(p, x, sc, st);
    if r.Val? {
      BumpRest(c, st, r.v, up, sc, x, ops, tries, i);
      RunAdd(c.img, s, n, 2);
      var b := ApplyBump(up, r.v);
      if b.Yield? {
        RunAdd(c.img, s, n, 4);
        n, junk := n + 4, [];
      } else {
        assert ops + [r.v] == ops + ([r.v] + []);
        n, junk := n + 2, [r.v] + [];
      }
    }
  }

  /** After the variable is loaded: the old value stays, the new one is stored. */
  lemma BumpRest(c: Ctx, st: Store, a: Value, up: bool, sc: Scope, x: Name, ops: seq<Value>, tries: seq<nat>, i: nat)
    requires c.Valid() && Fits(c, sc, st) && i + 5 <= |c.items|
    requires c.items[i + 1] == Op(Dup, 0) && c.items[i + 2] == Op(if up then Inc else Dec, 0)
    requires c.items[i + 3] == Codegen.Store(x, sc) && c.items[i + 4] == Op(Pop, 0)
    ensures Run(c.img, c.At(st, ops + [a], tries, i + 1), 2)
         == OpOutcome(c, ApplyBump(up, a), st, ops + [a], tries, i + 3)
    ensures ApplyBump(up, a).Yield? ==>
              Run(c.img, c.At(st, ops + [a], tries, i + 1), 4)
              == c.At(WriteVar(x, sc, st, ApplyBump(up, a).v), ops + [a], tries, i + 5)
  {
    hide Run, Ctx.Valid, Ctx.ConfigAt, Ctx.RaiseAt, Pos, MarkedOnce, Codegen.Store, LastIndex, Unwind, ApplyBump;
    var s := c.At(st, ops + [a], tries, i + 1);
    StepDup(c, st, ops, a, tries, i + 1);
    assert ops + [a, a] == ops + [a] + [a];
    StepUn(c, st, ops + [a], a, tries, i + 2);
    RunAdd(c.img, s, 1, 1);
    var b := ApplyBump(up, a);
    if b.Yield? {
      StepStore(c, st, ops + [a], b.v, tries, i + 3, x, sc);
      StepPop(c, WriteVar(x, sc, st, b.v), ops + [a], b.v, tries, i + 4);
      RunAdd(c.img, s, 2, 1);
      RunAdd(c.img, s, 3, 1);
    }
  }

  lemma BinaryIs(p: Program, depth: nat, fuel: nat, op: BinOp, a: Expr, b: Expr, sc: Scope, st: Store, l: nat, k: nat)
    ensures GenExpr(Binary(op, a, b), sc, l, k)
         == GenExpr(a, sc, l, k) + GenExpr(b, sc, l + ExprLabels(a), k + |ExprConsts(a)|) + [Op(Bin(op), 0)]
    ensures ExprConsts(Binary(op, a, b)) == ExprConsts(a) + ExprConsts(b)
    ensures var r := EvalExpr(p, depth, fuel, a, sc, st);
            EvalExpr(p, depth, fuel, Binary(op, a, b), sc, st)
            == if !r.Val? then r
               else
                 var r1 := EvalExpr(p, depth, fuel, b, sc, r.st);
                 if r1.Val? then FromOp(ApplyBinary(op, r.v, r1.v), r1.st) else r1
  {
    hide ApplyBinary;
  }

  lemma BinaryCorrect(p: Program, c: Ctx, fuel: nat, op: BinOp, a: Expr, b: Expr, sc: Scope, st: Store,
                      ops: seq<Value>, tries: seq<nat>, l: nat, k: nat, i: nat)
    returns (n: nat, junk: seq<Value>)
    requires Ready(p, c, sc, st)
    requires Part(c.items, i, GenExpr(Binary(op, a, b), sc, l, k)) && Pool(c.consts, k, ExprConsts(Binary(op, a, b)))
    ensures ExprPost(c, EvalExpr(p, c.Depth(), fuel, Binary(op, a, b), sc, st), |st.locals|, c.At(st, ops, tries, i),
                     ops, tries, i + |GenExpr(Binary(op, a, b), sc, l, k)|, fuel, n, junk)
    decreases fuel, Binary(op, a, b), 0
  {
    hide Run, Ctx.Valid, Ctx.ConfigAt, Ctx.RaiseAt, Pos, Good, Compiled, MarkedOnce, Unwind, ApplyBinary, GenExpr, EvalExpr, ExprConsts, ExprLabels, Part, Pool;
    PartFits(c.items, i, GenExpr(Binary(op, a, b), sc, l, k));
    BinaryIs(p, c.Depth(), fuel, op, a, b, sc, st, l, k);
    var l1, k1 := l + ExprLabels(a), k + |ExprConsts(a)|;
    var ga, gb := GenExpr(a, sc, l, k), GenExpr(b, sc, l1, k1);
    Split(c.items, i, ga + gb, [Op(Bin(op), 0)]);
    Split(c.items, i, ga, gb);
    PoolSplit(c.consts, k, ExprConsts(a), ExprConsts(b));
    var j := i + |ga| + |gb|;
    Item0(c.items, j, [Op(Bin(op), 0)], 0);
    var s := c.At(st, ops, tries, i);
    n, junk := ExprCorrect(p, c, fuel, a, sc, st, ops, tries, l, k, i);
    var r := EvalExpr(p, c.Depth(), fuel, a, sc, st);
    if r.Val? {
      var n1, junk1 := ExprCorrect(p, c, fuel, b, sc, r.st, ops + [r.v], tries, l1, k1, i + |ga|);
      var r1 := EvalExpr(p, c.Depth(), fuel, b, sc, r.st);
      if r1.Val? {
        RunAdd(c.img, s, n, n1);
        assert ops + [r.v] + [r1.v] == ops + [r.v, r1.v];
        StepBin(c, r1.st, ops, r.v, r1.v, tries, j);
        RunAdd(c.img, s, n + n1, 1);
        OpPost(c, ApplyBinary(op, r.v, r1.v), r1.st, s, ops, tries, j + 1, fuel, n + n1 + 1);
        n, junk := n + n1 + 1, [];
      } else {
        ExprFails(c, r1, |st.locals|, s, c.At(r.st, ops + [r.v], tries, i + |ga|), [r.v], ops, tries,
                  j, j + 1, fuel, n, n1, junk1);
        n, junk := n + n1, [r.v] + junk1;
      }
    }
  }

  lemma OpAssignIs(p: Program, depth: nat, fuel: nat, x: Name, op: BinOp, e1: Expr, sc: Scope, st: Store, l: nat, k: nat)
    ensures GenExpr(OpAssign(x, op, e1), sc, l, k)
         == [Load(x, sc)] + GenExpr(e1, sc, l, k) + [Op(Bin(op), 0), Codegen.Store(x, sc)]
    ensures ExprConsts(OpAssign(x, op, e1)) == ExprConsts(e1)
    ensures var r := ReadVar(p, x, sc, st);
            EvalExpr(p, depth, fuel, OpAssign(x, op, e1), sc, st)
            == if !r.Val? then r
               else
                 var r1 := EvalExpr(p, depth, fuel, e1, sc, st);
                 if !r1.Val? then r1
                 else
                   var b := ApplyBinary(op, r.v, r1.v);
                   if b.Yield? then Val(b.v, WriteVar(x, sc, r1.st, b.v)) else FromOp(b, r1.st)
  {
    hide ApplyBinary, ReadVar, WriteVar;
  }

  lemma OpAssignCorrect(p: Program, c: Ctx, fuel: nat, x: Name, op: BinOp, e1: Expr, sc: Scope, st: Store,
                        ops: seq<Value>, tries: seq<nat>, l: nat, k: nat, i: nat)
    returns (n: nat, junk: seq<Value>)
    requires Ready(p, c, sc, st)
    requires Part(c.items, i, GenExpr(OpAssign(x, op, e1), sc, l, k)) && Pool(c.consts, k, ExprConsts(OpAssign(x, op, e1)))
    ensures ExprPost(c, EvalExpr(p, c.Depth(), fuel, OpAssign(x, op, e1), sc, st), |st.locals|, c.At(st, ops, tries, i),
                     ops, tries, i + |GenExpr(OpAssign(x, op, e1), sc, l, k)|, fuel, n, junk)
    decreases fuel, OpAssign(x, op, e1), 0
  {
    hide Run, Ctx.Valid, Ctx.ConfigAt, Ctx.RaiseAt, Pos, Good, Compiled, MarkedOnce, Load, Codegen.Store, LastIndex, Unwind, ApplyBinary, GenExpr, EvalExpr, ExprConsts, ExprLabels, Part, Pool;
    PartFits(c.items, i, GenExpr(OpAssign(x, op, e1), sc, l, k));
    OpAssignIs(p, c.Depth(), fuel, x, op, e1, sc, st, l, k);
    var g := GenExpr(e1, sc, l, k);
    var m := [Op(Bin(op), 0), Codegen.Store(x, sc)];
    Split(c.items, i, [Load(x, sc)] + g, m);
    Split(c.items, i, [Load(x, sc)], g);
    Item0(c.items, i, [Load(x, sc)], 0);
    var j := i + 1 + |g|;
    Item0(c.items, j, m, 0);
    Item0(c.items, j, m, 1);
    var s := c.At(st, ops, tries, i);
    n, junk := VarCorrect(p, c, fuel, x, sc, st, ops, tries, i);
    var r := ReadVar(p, x, sc, st);
    if r.Val? {
      var n1, junk1 := ExprCorrect(p, c, fuel, e1, sc, st, ops + [r.v], tries, l, k, i + 1);
      var r1 := EvalExpr(p, c.Depth(), fuel, e1, sc, st);
      if r1.Val? {
        RunAdd(c.img, s, n, n1);
        assert ops + [r.v] + [r1.v] == ops + [r.v, r1.v];
        StepBin(c, r1.st, ops, r.v, r1.v, tries, j);
        RunAdd(c.img, s, n + n1, 1);
        var b := ApplyBinary(op, r.v, r1.v);
        OpPost(c, b, r1.st, s, ops, tries, j + 1, fuel, n + n1 + 1);
        n, junk := n + n1 + 1, [];
        if b.Yield? {
          StepStore(c, r1.st, ops, b.v, tries, j + 1, x, sc);
          RunAdd(c.img, s, n, 1);
          n := n + 1;
        }
      } else {
        ExprFails(c, r1, |st.locals|, s, c.At(st, ops + [r.v], tries, i + 1), [r.v], ops, tries,
                  j, j + 2, fuel, n, n1, junk1);
        n, junk := n + n1, [r.v] + junk1;
      }
    }
  }

  lemma LogicIs(p: Program, depth: nat, fuel: nat, isAnd: bool, a: Expr, b: Expr, sc: Scope, st: Store, l: nat, k: nat)
    ensures var end := l + ExprLabels(a);
            GenExpr(Logic(isAnd, a, b), sc, l, k)
            == LogicCode(GenExpr(a, sc, l, k), isAnd, end, GenExpr(b, sc, end + 1, k + |ExprConsts(a)|))
    ensures ExprConsts(Logic(isAnd, a, b)) == ExprConsts(a) + ExprConsts(b)
    ensures var r := EvalExpr(p, depth, fuel, a, sc, st);
            EvalExpr(p, depth, fuel, Logic(isAnd, a, b), sc, st)
            == if r.Val? && Truthy(r.v) == isAnd then EvalExpr(p, depth, fuel, b, sc, r.st) else r
  {
    hide LogicCode;
  }

  /** After the left operand: its value is tested, and dropped only if the right operand
      is needed. */
  lemma LogicTest(c: Ctx, st: Store, v: Value, isAnd: bool, end: nat, ops: seq<Value>, tries: seq<nat>, j: nat, last: nat)
    requires c.Valid() && j + 3 <= last < |c.items|
    requires c.items[j] == Op(Dup, 0) && c.items[j + 1] == Ref(if isAnd then JumpIfFalse else JumpIfTrue, end)
    requires c.items[j + 2] == Op(Pop, 0) && c.items[last] == Mark(end)
    ensures Truthy(v) == isAnd ==> Run(c.img, c.At(st, ops + [v], tries, j), 3) == c.At(st, ops, tries, j + 3)
    ensures Truthy(v) != isAnd ==> Run(c.img, c.At(st, ops + [v], tries, j), 2) == c.At(st, ops + [v], tries, last + 1)
  {
    hide Run, Ctx.Valid, Ctx.ConfigAt, Ctx.RaiseAt, Pos, MarkedOnce, Addr, Truthy;
    var s := c.At(st, ops + [v], tries, j);
    StepDup(c, st, ops, v, tries, j);
    assert ops + [v, v] == ops + [v] + [v];
    StepBranch(c, st, ops + [v], v, tries, j + 1);
    RunAdd(c.img, s, 1, 1);
    if Truthy(v) == isAnd {
      StepPop(c, st, ops, v, tries, j + 2);
      RunAdd(c.img, s, 2, 1);
    } else {
      AtLabel(c, st, ops + [v], tries, last);
    }
  }

  lemma LogicCorrect(p: Program, c: Ctx, fuel: nat, isAnd: bool, a: Expr, b: Expr, sc: Scope, st: Store,
                     ops: seq<Value>, tries: seq<nat>, l: nat, k: nat, i: nat)
    returns (n: nat, junk: seq<Value>)
    requires Ready(p, c, sc, st)
    requires Part(c.items, i, GenExpr(Logic(isAnd, a, b), sc, l, k)) && Pool(c.consts, k, ExprConsts(Logic(isAnd, a, b)))
    ensures ExprPost(c, EvalExpr(p, c.Depth(), fuel, Logic(isAnd, a, b), sc, st), |st.locals|, c.At(st, ops, tries, i),
                     ops, tries, i + |GenExpr(Logic(isAnd, a, b), sc, l, k)|, fuel, n, junk)
    decreases fuel, Logic(isAnd, a, b), 0
  {
    hide Run, Ctx.Valid, Ctx.ConfigAt, Ctx.RaiseAt, Pos, Good, Compiled, MarkedOnce, Unwind, LogicCode, Addr, GenExpr, EvalExpr, ExprConsts, ExprLabels, Part, Pool;
    PartFits(c.items, i, GenExpr(Logic(isAnd, a, b), sc, l, k));
    LogicIs(p, c.Depth(), fuel, isAnd, a, b, sc, st, l, k);
    var end, k1 := l + ExprLabels(a), k + |ExprConsts(a)|;
    var ga, gb := GenExpr(a, sc, l, k), GenExpr(b, sc, end + 1, k1);
    LogicAt(c.items, i, ga, isAnd, end, gb);
    PoolSplit(c.consts, k, ExprConsts(a), ExprConsts(b));
    var j := i + |ga|;
    var last := j + 3 + |gb|;
    var s := c.At(st, ops, tries, i);
    n, junk := ExprCorrect(p, c, fuel, a, sc, st, ops, tries, l, k, i);
    var r := EvalExpr(p, c.Depth(), fuel, a, sc, st);
    if r.Val? {
      LogicTest(c, r.st, r.v, isAnd, end, ops, tries, j, last);
      if Truthy(r.v) == isAnd {
        RunAdd(c.img, s, n, 3);
        var n1, junk1 := ExprCorrect(p, c, fuel, b, sc, r.st, ops, tries, end + 1, k1, j + 3);
        var r1 := EvalExpr(p, c.Depth(), fuel, b, sc, r.st);
        ExprAfter(c, r1, |st.locals|, s, c.At(r.st, ops, tries, j + 3), ops, tries, last, fuel, n + 3, n1, junk1);
        n, junk := n + 3 + n1, junk1;
        if r1.Val? {
          AtLabel(c, r1.st, ops + [r1.v], tries, last);
        }
      } else {
        RunAdd(c.img, s, n, 2);
        n := n + 2;
      }
    }
  }

  /** A call whose callee and arguments have been evaluated. */
  function CallResult(p: Program, depth: nat, fuel: nat, callee: Value, vs: seq<Value>, st: Store): ExprResult {
    match Enter(p, depth, callee, vs, st)
    case Refuse(r) => r
    case Body(d, locals) =>
      if fuel == 0 then Timeout
      else Leave(EvalBlock(p, depth + 1, fuel - 1, d.body, Local(d.params), st.(locals := locals)), st)
  }

  function FailedArgs(r: ArgsResult): ExprResult
    requires !r.Vals?
  {
    match r
    case ArgsErr(err, st) => Err(err, st)
    case ArgsStop => Stop
    case ArgsTimeout => Timeout
  }

  lemma CallIs(p: Program, depth: nat, fuel: nat, f: Expr, args: List<Expr>, sc: Scope, st: Store, l: nat, k: nat)
    ensures GenExpr(Call(f, args), sc, l, k)
         == GenExpr(f, sc, l, k) + GenArgs(args, sc, l + ExprLabels(f), k + |ExprConsts(f)|)
            + [Op(CallFn, Length(args))]
    ensures ExprConsts(Call(f, args)) == ExprConsts(f) + ArgsConsts(args)
    ensures var r := EvalExpr(p, depth, fuel, f, sc, st);
            EvalExpr(p, depth, fuel, Call(f, args), sc, st)
            == if !r.Val? then r
               else
                 var r1 := EvalArgs(p, depth, fuel, args, sc, r.st);
                 if r1.Vals? then CallResult(p, depth, fuel, r.v, r1.vs, r1.st) else FailedArgs(r1)
  {
    hide EvalExpr, GenArgs;
    CallEvaluates(p, depth, fuel, f, args, sc, st);
  }

  lemma CallEvaluates(p: Program, depth: nat, fuel: nat, f: Expr, args: List<Expr>, sc: Scope, st: Store)
    ensures var r := EvalExpr(p, depth, fuel, f, sc, st);
            EvalExpr(p, depth, fuel, Call(f, args), sc, st)
            == if !r.Val? then r
               else
                 var r1 := EvalArgs(p, depth, fuel, args, sc, r.st);
                 if r1.Vals? then CallResult(p, depth, fuel, r.v, r1.vs, r1.st) else FailedArgs(r1)
  {
    hide Enter, Leave, EvalBlock, EvalArgs;
  }

  lemma ArgsFail(c: Ctx, r: ArgsResult, size: nat, start: State, mid: State, callee: Value, ops: seq<Value>,
                 tries: seq<nat>, j: nat, fuel: nat, m: nat, n: nat, junk: seq<Value>)
    requires j < |c.items| && !r.Vals? && Run(c.img, start, m) == mid
    requires ArgsPost(c, r, size, mid, ops + [callee], tries, j, fuel, n, junk)
    ensures ExprPost(c, FailedArgs(r), size, start, ops, tries, j + 1, fuel, m + n, [callee] + junk)
  {
    hide Run, Ctx.Valid, Ctx.ConfigAt, Ctx.RaiseAt, Pos, Unwind;
    ExprFails(c, FailedArgs(r), size, start, mid, [callee], ops, tries, j, j + 1, fuel, m, n, junk);
  }

  lemma CallExprCorrect(p: Program, c: Ctx, fuel: nat, f: Expr, args: List<Expr>, sc: Scope, st: Store,
                        ops: seq<Value>, tries: seq<nat>, l: nat, k: nat, i: nat)
    returns (n: nat, junk: seq<Value>)
    requires Ready(p, c, sc, st)
    requires Part(c.items, i, GenExpr(Call(f, args), sc, l, k)) && Pool(c.consts, k, ExprConsts(Call(f, args)))
    ensures ExprPost(c, EvalExpr(p, c.Depth(), fuel, Call(f, args), sc, st), |st.locals|, c.At(st, ops, tries, i),
                     ops, tries, i + |GenExpr(Call(f, args), sc, l, k)|, fuel, n, junk)
    decreases fuel, Call(f, args), 0
  {
    hide Run, Ctx.Valid, Ctx.ConfigAt, Ctx.RaiseAt, Pos, Good, Compiled, MarkedOnce, Unwind, GenExpr, EvalExpr, ExprConsts, ExprLabels, GenArgs, EvalArgs, ArgsConsts, CallResult, Length, FailedArgs, Enter, Part, Pool;
    PartFits(c.items, i, GenExpr(Call(f, args), sc, l, k));
    CallIs(p, c.Depth(), fuel, f, args, sc, st, l, k);
    var l1, k1 := l + ExprLabels(f), k + |ExprConsts(f)|;
    var gf, ga := GenExpr(f, sc, l, k), GenArgs(args, sc, l1, k1);
    var m := [Op(CallFn, Length(args))];
    Split(c.items, i, gf + ga, m);
    Split(c.items, i, gf, ga);
    PoolSplit(c.consts, k, ExprConsts(f), ArgsConsts(args));
    var j := i + |gf| + |ga|;
    Item0(c.items, j, m, 0);
    var s := c.At(st, ops, tries, i);
    n, junk := ExprCorrect(p, c, fuel, f, sc, st, ops, tries, l, k, i);
    var r := EvalExpr(p, c.Depth(), fuel, f, sc, st);
    if r.Val? {
      var mid := c.At(r.st, ops + [r.v], tries, i + |gf|);
      var n1, junk1 := ArgsCorrect(p, c, fuel, args, sc, r.st, ops + [r.v], tries, l1, k1, i + |gf|);
      var r1 := EvalArgs(p, c.Depth(), fuel, args, sc, r.st);
      if r1.Vals? {
        RunAdd(c.img, s, n, n1);
        var n2, junk2;
        var enter := Enter(p, c.Depth(), r.v, r1.vs, r1.st);
        if fuel == 0 || enter.Refuse? {
          n2, junk2 := CallRefused(p, c, fuel, r.v, r1.vs, r1.st, ops, tries, j);
        } else {
          n2, junk2 := BodyCorrect(p, c, fuel - 1, enter.d, r.v, r1.vs, r1.st, ops, tries, j);
        }
        var r2 := EvalExpr(p, c.Depth(), fuel, Call(f, args), sc, st);
        ExprAfter(c, r2, |st.locals|, s, c.At(r1.st, ops + [r.v] + r1.vs, tries, j), ops, tries, j + 1,
                  fuel, n + n1, n2, junk2);
        n, junk := n + n1 + n2, junk2;
      } else {
        ArgsFail(c, r1, |st.locals|, s, mid, r.v, ops, tries, j, fuel, n, n1, junk1);
        n, junk := n + n1, [r.v] + junk1;
      }
    }
  }

  lemma {:induction false} ExprCorrect(p: Program, c: Ctx, fuel: nat, e: Expr, sc: Scope, st: Store,
                                       ops: seq<Value>, tries: seq<nat>, l: nat, k: nat, i: nat)
    returns (n: nat, junk: seq<Value>)
    requires Ready(p, c, sc, st)
    requires Part(c.items, i, GenExpr(e, sc, l, k)) && Pool(c.consts, k, ExprConsts(e))
    ensures ExprPost(c, EvalExpr(p, c.Depth(), fuel, e, sc, st), |st.locals|, c.At(st, ops, tries, i),
                     ops, tries, i + |GenExpr(e, sc, l, k)|, fuel, n, junk)
    decreases fuel, e, 1
  {
    hide Run, Ctx.Valid, Ctx.ConfigAt, Ctx.RaiseAt, Pos, Good, Compiled, MarkedOnce, Unwind, LogicCode, ReadVar, WriteVar, FromOp, Enter, Leave, Load, Codegen.Store, Part, Pool;
    PartFits(c.items, i, GenExpr(e, sc, l, k));
    hide ExprPost;
    match e
    case Const(lit) => n, junk := LiteralCorrect(p, c, fuel, lit, sc, st, ops, tries, l, k, i);
    case Var(x) =>
      Item0(c.items, i, [Load(x, sc)], 0);
      n, junk := VarCorrect(p, c, fuel, x, sc, st, ops, tries, i);
    case Assign(x, e1) => n, junk := AssignCorrect(p, c, fuel, x, e1, sc, st, ops, tries, l, k, i);
    case OpAssign(x, op, e1) => n, junk := OpAssignCorrect(p, c, fuel, x, op, e1, sc, st, ops, tries, l, k, i);
    case Bump(x, up) => n, junk := BumpCorrect(p, c, fuel, x, up, sc, st, ops, tries, l, k, i);
    case Unary(op, e1) => n, junk := UnaryCorrect(p, c, fuel, op, e1, sc, st, ops, tries, l, k, i);
    case Binary(op, a, b) => n, junk := BinaryCorrect(p, c, fuel, op, a, b, sc, st, ops, tries, l, k, i);
    case Logic(isAnd, a, b) => n, junk := LogicCorrect(p, c, fuel, isAnd, a, b, sc, st, ops, tries, l, k, i);
    case Call(f, args) => n, junk := CallExprCorrect(p, c, fuel, f, args, sc, st, ops, tries, l, k, i);
  }

  lemma {:induction false} ArgsCorrect(p: Program, c: Ctx, fuel: nat, es: List<Expr>, sc: Scope, st: Store,
                                       ops: seq<Value>, tries: seq<nat>, l: nat, k: nat, i: nat)
    returns (n: nat, junk: seq<Value>)
    requires Ready(p, c, sc, st)
    requires Part(c.items, i, GenArgs(es, sc, l, k)) && Pool(c.consts, k, ArgsConsts(es))
    ensures ArgsPost(c, EvalArgs(p, c.Depth(), fuel, es, sc, st), |st.locals|, c.At(st, ops, tries, i),
                     ops, tries, i + |GenArgs(es, sc, l, k)|, fuel, n, junk)
    decreases fuel, es, 1
  {
    hide Run, Ctx.Valid, Ctx.ConfigAt, Ctx.RaiseAt, Pos, Good, Compiled, MarkedOnce, Unwind, GenExpr, EvalExpr, ExprConsts, Part, Pool;
    PartFits(c.items, i, GenArgs(es, sc, l, k));
    var s := c.At(st, ops, tries, i);
    match es
    case Nil =>
      assert ops + [] == ops;
      RunZero(c.img, s);
      n, junk := 0, [];
    case Cons(e, rest) =>
      var l1, k1 := l + ExprLabels(e), k + |ExprConsts(e)|;
      var g := GenExpr(e, sc, l, k);
      Split(c.items, i, g, GenArgs(rest, sc, l1, k1));
      PoolSplit(c.consts, k, ExprConsts(e), ArgsConsts(rest));
      n, junk := ExprCorrect(p, c, fuel, e, sc, st, ops, tries, l, k, i);
      var r := EvalExpr(p, c.Depth(), fuel, e, sc, st);
      if r.Val? {
        var n1, junk1 := ArgsCorrect(p, c, fuel, rest, sc, r.st, ops + [r.v], tries, l1, k1, i + |g|);
        RunAdd(c.img, s, n, n1);
        var r1 := EvalArgs(p, c.Depth(), fuel, rest, sc, r.st);
        if r1.Vals? {
          Assoc(ops, [r.v], r1.vs);
        } else {
          Assoc(ops, [r.v], junk1);
        }
        n, junk := n + n1, [r.v] + junk1;
      }
  }

  lemma RunZero(img: Image, s: State)
    ensures Run(img, s, 0) == s
  {
  }

  // ----- calls -----

  /** The activation that calling function `fn` at item `i` with arguments `vs` starts. */
  function Callee(p: Program, c: Ctx, fn: nat, vs: seq<Value>, callee: Value, st: Store, ops: seq<Value>,
                  tries: seq<nat>, i: nat): Ctx
    requires fn < |p.funs| && i < |c.items|
  {
    Ctx(c.img, GenFun(p.funs[fn]), BlockConsts(p.funs[fn].body), Some(fn), |vs|,
        c.base + st.locals + ops + [callee], c.below + [c.FrameAt(Pos(c.items, i + 1), tries)])
  }

  lemma CalleeValid(p: Program, c: Ctx, fn: nat, vs: seq<Value>, callee: Value, st: Store, ops: seq<Value>,
                    tries: seq<nat>, i: nat)
    requires Compiled(p, c.img) && fn < |p.funs| && i < |c.items|
    ensures Callee(p, c, fn, vs, callee, st, ops, tries, i).Valid()
  {
    hide GenFun, Pos, MarkedOnce, EmitUpTo, BlockConsts;
    FunMarkedOnce(p.funs[fn]);
    assert c.img.funs[fn] == FunCode(p.funs[fn]);
  }

  lemma CompiledFun(p: Program, img: Image, fn: nat)
    requires Compiled(p, img)
    ensures |img.funs| == |p.funs| && img.strings == p.strings
    ensures fn < |p.funs| ==> img.funs[fn].arity == |p.funs[fn].params| && img.funs[fn].name == p.funs[fn].name
  {
    hide GenFun, EmitUpTo, BlockConsts;
  }

  /** A call that is refused before a frame exists leaves everything on the stack. */
  lemma StepCallRefused(p: Program, c: Ctx, callee: Value, vs: seq<Value>, st: Store, ops: seq<Value>, tries: seq<nat>, i: nat)
    requires c.Valid() && Compiled(p, c.img) && i < |c.items| && c.items[i] == Op(CallFn, |vs|)
    requires callee.FunV? && callee.code < |p.funs| ==> |p.funs[callee.code].params| > |vs|
    ensures Run(c.img, c.At(st, ops + [callee] + vs, tries, i), 1)
         == match Enter(p, c.Depth(), callee, vs, st)
            case Refuse(Err(err, _)) => c.RaiseAt(st, ops + ([callee] + vs), tries, err)
            case _ => Stopped
  {
    hide Pos, Unwind, Raised, Ctx.RaiseAt, GenFun, Goto, TopStep, PushStep, RetStep, Compiled, BodySlots;
    hide NotCallable, TooFew;
    if callee.FunV? {
      CompiledFun(p, c.img, callee.code);
    }
    var pc := Pos(c.items, i);
    var operands := ops + [callee] + vs;
    var cfg := c.ConfigAt(st, operands, tries, pc);
    StepAt(c, st, operands, tries, i);
    FrameShape(c, st, operands, tries, pc);
    assert operands == ops + ([callee] + vs);
    assert cfg.stack == c.base + st.locals + ops + [callee] + vs;
    assert cfg.stack[|cfg.stack| - |vs| - 1] == callee;
    if !callee.FunV? {
      RaisedHere(c, st, operands, tries, pc, cfg, NotCallable(callee));
    } else if callee.code < |p.funs| {
      var d := p.funs[callee.code];
      RaisedHere(c, st, operands, tries, pc, cfg, TooFew(p.Text(d.name)));
    }
  }

  /** A call that gets a frame: the callee starts, or fails at once for depth. */
  lemma StepCall(p: Program, c: Ctx, callee: Value, vs: seq<Value>, st: Store, ops: seq<Value>, tries: seq<nat>, i: nat)
    requires c.Valid() && Compiled(p, c.img) && i < |c.items| && c.items[i] == Op(CallFn, |vs|)
    requires callee.FunV? && callee.code < |p.funs| && |p.funs[callee.code].params| <= |vs|
    ensures Run(c.img, c.At(st, ops + [callee] + vs, tries, i), 1)
         == match Enter(p, c.Depth(), callee, vs, st)
            case Refuse(_) => c.RaiseAt(st, ops + [callee], tries, STACK_OVERFLOW)
            case Body(d, _) =>
              Callee(p, c, callee.code, vs, callee, st, ops, tries, i).AtPc(st.(locals := vs), [], [], 0)
  {
    hide Pos, Unwind, Raised, Ctx.RaiseAt, GenFun, Goto, TopStep, PushStep, RetStep, Compiled, BodySlots;
    hide NotCallable, TooFew;
    CompiledFun(p, c.img, callee.code);
    var pc := Pos(c.items, i);
    var operands := ops + [callee] + vs;
    var cfg := c.ConfigAt(st, operands, tries, pc);
    StepAt(c, st, operands, tries, i);
    FrameShape(c, st, operands, tries, pc);
    var bp := |cfg.stack| - |vs| - 1;
    assert bp == |c.base + st.locals + ops|;
    assert cfg.stack == c.base + st.locals + ops + [callee] + vs;
    assert cfg.stack[bp] == callee;
    CalledFrames(p, c, callee, vs, st, ops, tries, i);
  }

  /** The frames after a call, and what is left of them when the callee fails at once. */
  lemma CalledFrames(p: Program, c: Ctx, callee: Value, vs: seq<Value>, st: Store, ops: seq<Value>, tries: seq<nat>, i: nat)
    requires c.Valid() && callee.FunV? && callee.code < |p.funs| && i < |c.items| && !c.items[i].Mark?
    ensures var pc := Pos(c.items, i);
            var bp := |c.base + st.locals + ops|;
            var cfg := c.ConfigAt(st, ops + [callee] + vs, tries, pc);
            var c1 := Callee(p, c, callee.code, vs, callee, st, ops, tries, i);
            var frames := c.below + [c.FrameAt(pc + 1, tries), Frame(Some(callee.code), 0, bp, |vs|, [])];
            && Running(cfg.(frames := frames)) == c1.AtPc(st.(locals := vs), [], [], 0)
            && |frames| == c.Depth() + 1
            && Raised(cfg.(frames := frames), STACK_OVERFLOW) == c.RaiseAt(st, ops + [callee], tries, STACK_OVERFLOW)
  {
    hide GenFun;
    var pc := Pos(c.items, i);
    var bp := |c.base + st.locals + ops|;
    var cfg := c.ConfigAt(st, ops + [callee] + vs, tries, pc);
    var caller, f := c.FrameAt(pc + 1, tries), Frame(Some(callee.code), 0, bp, |vs|, []);
    var frames := c.below + [caller, f];
    assert frames == c.below + [caller] + [f];
    assert frames[..|frames| - 1] == c.below + [caller];
    assert cfg.stack == c.base + st.locals + ops + [callee] + vs + [];
    assert cfg.stack == c.base + st.locals + (ops + [callee]) + vs;
    assert cfg.stack[..bp + 1] == c.base + st.locals + (ops + [callee]);
    UnwindIgnoresIp(cfg.stack[..bp + 1], st.globals, st.allocs, c.below, caller, 0, STACK_OVERFLOW);
  }

  /** The prologue of a function: null for every local that is not an argument. */
  lemma Prologue(p: Program, c: Ctx, d: FunDecl, vs: seq<Value>, st: Store)
    requires c.Valid() && c.fn.Some? && c.items == GenFun(d)
    ensures Run(c.img, c.AtPc(st.(locals := vs), [], [], 0), 1)
         == c.At(st.(locals := vs + seq(BodySlots(d) - |d.params|, _ => NullV)), [], [], 2)
  {
    hide Pos, GenBlock, Goto, CallStep, TopStep, RetStep;
    var extra := BodySlots(d) - |d.params|;
    var nulls := seq(extra, _ => NullV);
    var st0, st1 := st.(locals := vs), st.(locals := vs + nulls);
    assert c.items[0] == Mark(0) && c.items[1] == Op(AllocateLocals, extra);
    assert Pos(c.items, 0) == 0 == Pos(c.items, 1) by {
      PosStart(c.items);
    }
    StepAt(c, st0, [], [], 1);
    var cfg := c.ConfigAt(st0, [], [], 0);
    FrameShape(c, st0, [], [], 0);
    assert cfg.stack + nulls == c.base + st1.locals + [];
    Proceed(c, cfg, st1, [], [], 1, cfg.stack + nulls);
  }

  lemma PosStart(items: seq<Item>)
    requires |items| > 0 && items[0].Mark?
    ensures Pos(items, 0) == 0 == Pos(items, 1)
  {
  }

  /** The epilogue: a body that falls through returns null. */
  lemma Epilogue(c: Ctx, st: Store, ops: seq<Value>, j: nat)
    requires c.Valid() && c.fn.Some? && j + 2 <= |c.items|
    requires c.items[j] == Op(ConstNull, 0) && c.items[j + 1] == Op(Ret, 0)
    ensures Run(c.img, c.At(st, ops, [], j), 2) == c.ReturnAt(st, NullV)
  {
    hide Pos, Run;
    StepPush(c, st, ops, [], j, Program(Nil, [], c.img.strings), NullLit, 0);
    StepRet(c, st, ops, NullV, [], j + 1);
    RunAdd(c.img, c.At(st, ops, [], j), 1, 1);
  }

  /** Returning to the caller puts the value where the callee was. */
  lemma BackInCaller(p: Program, c: Ctx, fn: nat, vs: seq<Value>, callee: Value, st: Store, st1: Store, v: Value,
                     ops: seq<Value>, tries: seq<nat>, i: nat)
    requires fn < |p.funs| && i < |c.items|
    ensures Callee(p, c, fn, vs, callee, st, ops, tries, i).ReturnAt(st1, v)
         == c.At(st1.(locals := st.locals), ops + [v], tries, i + 1)
  {
    hide Pos, GenFun;
    var c1 := Callee(p, c, fn, vs, callee, st, ops, tries, i);
    assert c1.base[..c1.Bp()] + [v] == c.base + st.locals + (ops + [v]);
  }

  /** An error that leaves the callee is raised again in the caller, above the function
      value. */
  lemma ErrorInCaller(p: Program, c: Ctx, fn: nat, vs: seq<Value>, callee: Value, st: Store, st1: Store, err: Value,
                      junk: seq<Value>, ops: seq<Value>, tries: seq<nat>, i: nat)
    requires fn < |p.funs| && i < |c.items|
    ensures Callee(p, c, fn, vs, callee, st, ops, tries, i).RaiseAt(st1, junk, [], err)
         == c.RaiseAt(st1.(locals := st.locals), ops + [callee], tries, err)
  {
    hide Pos, GenFun;
    var c1 := Callee(p, c, fn, vs, callee, st, ops, tries, i);
    var stack := c1.base + st1.locals + junk;
    var frames := c1.below + [c1.FrameAt(0, [])];
    assert frames[..|frames| - 1] == c1.below;
    assert stack[..c1.Bp() + 1] == c1.base == c.base + st.locals + (ops + [callee]);
    UnwindIgnoresIp(c1.base, st1.globals, st1.allocs, c.below, c.FrameAt(Pos(c.items, i + 1), tries), 0, err);
  }

  /** Calls whose body never runs. */
  lemma CallRefused(p: Program, c: Ctx, fuel: nat, callee: Value, vs: seq<Value>, st: Store,
                    ops: seq<Value>, tries: seq<nat>, i: nat)
    returns (n: nat, junk: seq<Value>)
    requires c.Valid() && Compiled(p, c.img)
    requires i < |c.items| && c.items[i] == Op(CallFn, |vs|)
    requires fuel == 0 || Enter(p, c.Depth(), callee, vs, st).Refuse?
    ensures ExprPost(c, CallResult(p, c.Depth(), fuel, callee, vs, st), |st.locals|,
                     c.At(st, ops + [callee] + vs, tries, i), ops, tries, i + 1, fuel, n, junk)
  {
    hide Pos, Unwind, Run, GenFun, Compiled, EvalBlock, GenBlock, Callee;
    if callee.FunV? && callee.code < |p.funs| && |p.funs[callee.code].params| <= |vs| {
      StepCall(p, c, callee, vs, st, ops, tries, i);
      n, junk := 1, [callee];
    } else {
      StepCallRefused(p, c, callee, vs, st, ops, tries, i);
      n, junk := 1, [callee] + vs;
    }
  }

  /** The body of a called function, from the call instruction to the caller's next. */
  lemma BodyCorrect(p: Program, c: Ctx, fuel: nat, d: FunDecl, callee: Value, vs: seq<Value>, st: Store,
                    ops: seq<Value>, tries: seq<nat>, i: nat)
    returns (n: nat, junk: seq<Value>)
    requires c.Valid() && Good(p) && Compiled(p, c.img)
    requires i < |c.items| && c.items[i] == Op(CallFn, |vs|)
    requires Enter(p, c.Depth(), callee, vs, st).Body? && Enter(p, c.Depth(), callee, vs, st).d == d
    ensures ExprPost(c, CallResult(p, c.Depth(), fuel + 1, callee, vs, st), |st.locals|,
                     c.At(st, ops + [callee] + vs, tries, i), ops, tries, i + 1, fuel + 1, n, junk)
    decreases fuel, d, 8
  {
    hide Pos, Unwind, Run, Good, EvalBlock, GenBlock, BlockConsts, Ctx.ReturnAt, Ctx.RaiseAt, BodySlots;
    var fn := callee.code;
    var c1 := Callee(p, c, fn, vs, callee, st, ops, tries, i);
    var s := c.At(st, ops + [callee] + vs, tries, i);
    var locals := Enter(p, c.Depth(), callee, vs, st).locals;
    var st1 := st.(locals := locals);
    StepCall(p, c, callee, vs, st, ops, tries, i);
    CalleeValid(p, c, fn, vs, callee, st, ops, tries, i);
    Prologue(p, c1, d, vs, st);
    RunAdd(c.img, s, 1, 1);
    var n1, junk1, j := FunBody(p, c1, fuel, d, st1);
    RunAdd(c.img, s, 2, n1);
    n := 2 + n1;
    junk := [];
    assert [] + junk1 == junk1;
    match EvalBlock(p, c1.Depth(), fuel, d.body, Local(d.params), st1)
    case Done(st2) =>
      Epilogue(c1, st2, junk1, j);
      RunAdd(c.img, s, n, 2);
      BackInCaller(p, c, fn, vs, callee, st, st2, NullV, ops, tries, i);
      n := n + 2;
    case Returned(v, st2) => BackInCaller(p, c, fn, vs, callee, st, st2, v, ops, tries, i);
    case Threw(err, st2) =>
      ErrorInCaller(p, c, fn, vs, callee, st, st2, err, junk1, ops, tries, i);
      junk := [callee];
    case Ended =>
    case OutOfFuel =>
  }

  /** The statements of a function body, between prologue and epilogue. */
  lemma FunBody(p: Program, c: Ctx, fuel: nat, d: FunDecl, st: Store)
    returns (n: nat, junk: seq<Value>, j: nat)
    requires c.Valid() && Good(p) && Compiled(p, c.img) && c.fn.Some? && c.fn.value < |p.funs|
    requires p.funs[c.fn.value] == d && c.items == GenFun(d) && c.consts == BlockConsts(d.body)
    requires |st.locals| >= BodySlots(d)
    ensures j + 2 == |c.items| && c.items[j] == Op(ConstNull, 0) && c.items[j + 1] == Op(Ret, 0)
    ensures StmtPost(c, EvalBlock(p, c.Depth(), fuel, d.body, Local(d.params), st), |st.locals|, None,
                     c.At(st, [], [], 2), [], [], j, fuel, n, junk)
    decreases fuel, d, 7
  {
    hide Pos, Unwind, Run, GenBlock, EvalBlock, MarkedOnce, PeakBlock;
    var pre := [Mark(0), Op(AllocateLocals, BodySlots(d) - |d.params|)];
    var g := GenBlock(d.body, Local(d.params), None, 1, 0);
    var post := [Op(ConstNull, 0), Op(Ret, 0)];
    assert Part(c.items, 0, pre + g + post);
    Split(c.items, 0, pre + g, post);
    Split(c.items, 0, pre, g);
    j := 2 + |g|;
    Item0(c.items, j, post, 0);
    Item0(c.items, j, post, 1);
    assert Pool(c.consts, 0, BlockConsts(d.body));
    n, junk := BlockCorrect(p, c, fuel, d.body, Local(d.params), None, st, [], [], 1, 0, 2);
    assert [] + junk == junk;
  }

  // ----- statements -----

  /** What a statement needs of the activation: room for its variables, its loop's try
      blocks on the try stack, its code and its constants in place. */
  ghost predicate StmtReady(p: Program, c: Ctx, sc: Scope, lp: Option<Loop>, st: Store, tries: seq<nat>, peak: nat) {
    && Ready(p, c, sc, st)
    && peak <= |st.locals|
    && (lp.Some? ==> lp.value.tries <= |tries|)
  }

  lemma NullCorrect(p: Program, c: Ctx, fuel: nat, sc: Scope, st: Store, ops: seq<Value>, tries: seq<nat>, i: nat)
    returns (n: nat, junk: seq<Value>)
    requires Ready(p, c, sc, st) && Part(c.items, i, [Op(ConstNull, 0)])
    ensures ExprPost(c, Val(NullV, st), |st.locals|, c.At(st, ops, tries, i), ops, tries, i + 1, fuel, n, junk)
  {
    hide Run, Ctx.Valid, Ctx.ConfigAt, Ctx.RaiseAt, Pos, MarkedOnce, Unwind, Good;
    Item0(c.items, i, [Op(ConstNull, 0)], 0);
    StepPush(c, st, ops, tries, i, p, NullLit, 0);
    n, junk := 1, [];
  }

  lemma OptCorrect(p: Program, c: Ctx, fuel: nat, e: Option<Expr>, sc: Scope, st: Store,
                   ops: seq<Value>, tries: seq<nat>, l: nat, k: nat, i: nat)
    returns (n: nat, junk: seq<Value>)
    requires Ready(p, c, sc, st)
    requires Part(c.items, i, GenOpt(e, sc, l, k)) && Pool(c.consts, k, OptConsts(e))
    ensures ExprPost(c, EvalOpt(p, c.Depth(), fuel, e, sc, st), |st.locals|, c.At(st, ops, tries, i),
                     ops, tries, i + |GenOpt(e, sc, l, k)|, fuel, n, junk)
    decreases fuel, e, 2
  {
    hide Run, Ctx.Valid, Ctx.ConfigAt, Ctx.RaiseAt, Pos, MarkedOnce, Unwind, GenExpr, EvalExpr, Good, Part, Pool;
    PartFits(c.items, i, GenOpt(e, sc, l, k));
    if e.Some? {
      n, junk := ExprCorrect(p, c, fuel, e.value, sc, st, ops, tries, l, k, i);
    } else {
      n, junk := NullCorrect(p, c, fuel, sc, st, ops, tries, i);
    }
  }

  /** Binding the value on top of the stack to a new variable. */
  lemma DeclareCorrect(c: Ctx, x: Name, sc: Scope, st: Store, v: Value, ops: seq<Value>, tries: seq<nat>, i: nat)
    returns (n: nat)
    requires c.Valid() && Fits(c, sc, st) && Part(c.items, i, GenDeclare(x, sc))
    requires sc.Declare(x).Size() <= |st.locals|
    ensures Run(c.img, c.At(st, ops + [v], tries, i), n)
         == c.At(DeclareVar(x, sc, st, v), ops, tries, i + |GenDeclare(x, sc)|)
    ensures Fits(c, sc.Declare(x), DeclareVar(x, sc, st, v)) && |DeclareVar(x, sc, st, v).locals| == |st.locals|
    ensures n > 0
  {
    hide Run, Ctx.Valid, Ctx.ConfigAt, Ctx.RaiseAt, Pos, MarkedOnce;
    var s := c.At(st, ops + [v], tries, i);
    var g := GenDeclare(x, sc);
    match sc
    case Global =>
      Item0(c.items, i, g, 0);
      Item0(c.items, i, g, 1);
      Item0(c.items, i, g, 2);
      var st1 := st.(globals := st.globals[x := NullV]);
      StepDeclareGlobal(c, st, ops + [v], tries, i);
      StepStoreGlobal(c, st1, ops, v, tries, i + 1);
      assert st1.globals[x := v] == st.globals[x := v];
      StepPop(c, DeclareVar(x, sc, st, v), ops, v, tries, i + 2);
      RunAdd(c.img, s, 1, 1);
      RunAdd(c.img, s, 2, 1);
      n := 3;
    case Local(ns) =>
      Item0(c.items, i, g, 0);
      Item0(c.items, i, g, 1);
      StepStoreSlot(c, st, ops, v, tries, i);
      StepPop(c, DeclareVar(x, sc, st, v), ops, v, tries, i + 1);
      RunAdd(c.img, s, 1, 1);
      n := 2;
  }

  lemma {:induction false} DeclsCorrect(p: Program, c: Ctx, fuel: nat, ds: List<Decl>, sc: Scope, lp: Option<Loop>, st: Store,
                                        ops: seq<Value>, tries: seq<nat>, l: nat, k: nat, i: nat)
    returns (n: nat, junk: seq<Value>)
    requires StmtReady(p, c, sc, lp, st, tries, AfterDecls(ds, sc).Size())
    requires Part(c.items, i, GenDecls(ds, sc, l, k)) && Pool(c.consts, k, DeclsConsts(ds))
    ensures StmtPost(c, EvalDecls(p, c.Depth(), fuel, ds, sc, st), |st.locals|, lp, c.At(st, ops, tries, i),
                     ops, tries, i + |GenDecls(ds, sc, l, k)|, fuel, n, junk)
    decreases fuel, ds, 3
  {
    hide Run, Ctx.Valid, Ctx.ConfigAt, Ctx.RaiseAt, Pos, MarkedOnce, Unwind, GenOpt, EvalOpt, GenDeclare, DeclareVar, Good, Compiled, OptConsts, Part, Pool;
    PartFits(c.items, i, GenDecls(ds, sc, l, k));
    var s := c.At(st, ops, tries, i);
    match ds
    case Nil =>
      assert ops + [] == ops;
      RunZero(c.img, s);
      n, junk := 0, [];
    case Cons(d, rest) =>
      var l1, k1 := l + OptLabels(d.init), k + |OptConsts(d.init)|;
      var g, gd := GenOpt(d.init, sc, l, k), GenDeclare(d.name, sc);
      var gr := GenDecls(rest, sc.Declare(d.name), l1, k1);
      Split(c.items, i, g + gd, gr);
      Split(c.items, i, g, gd);
      PoolSplit(c.consts, k, OptConsts(d.init), DeclsConsts(rest));
      AfterDeclsGrows(rest, sc.Declare(d.name));
      n, junk := OptCorrect(p, c, fuel, d.init, sc, st, ops, tries, l, k, i);
      var r := EvalOpt(p, c.Depth(), fuel, d.init, sc, st);
      if r.Val? {
        var n1 := DeclareCorrect(c, d.name, sc, r.st, r.v, ops, tries, i + |g|);
        RunAdd(c.img, s, n, n1);
        var st1 := DeclareVar(d.name, sc, r.st, r.v);
        assert ops + [] == ops;
        var n2, junk2 := DeclsCorrect(p, c, fuel, rest, sc.Declare(d.name), lp, st1, ops, tries, l1, k1, i + |g| + |gd|);
        StmtAfter(c, EvalDecls(p, c.Depth(), fuel, rest, sc.Declare(d.name), st1), |st.locals|, lp, s,
                  c.At(st1, ops, tries, i + |g| + |gd|), ops, [], tries,
                  i + |GenDecls(ds, sc, l, k)|, fuel, n + n1, n2, junk2);
        n, junk := n + n1 + n2, [] + junk2;
      } else {
        StmtFails(c, r, |st.locals|, lp, s, ops, tries, i + |g|, i + |GenDecls(ds, sc, l, k)|, fuel, n, junk);
      }
  }

  // ----- blocks -----

  lemma BlockIs(p: Program, depth: nat, fuel: nat, s: Stmt, rest: List<Stmt>, sc: Scope, lp: Option<Loop>, st: Store, l: nat, k: nat)
    ensures GenBlock(Cons(s, rest), sc, lp, l, k)
         == GenStmt(s, sc, lp, l, k) + GenBlock(rest, After(s, sc), lp, l + StmtLabels(s), k + |StmtConsts(s)|)
    ensures BlockConsts(Cons(s, rest)) == StmtConsts(s) + BlockConsts(rest)
    ensures var r := EvalStmt(p, depth, fuel, s, sc, st);
            EvalBlock(p, depth, fuel, Cons(s, rest), sc, st)
            == if r.Done? then EvalBlock(p, depth, fuel, rest, After(s, sc), r.st) else r
    ensures PeakBlock(Cons(s, rest), sc) >= Peak(s, sc) && PeakBlock(Cons(s, rest), sc) >= PeakBlock(rest, After(s, sc))
  {
    hide GenStmt, EvalStmt, StmtLabels, StmtConsts, After, Peak;
  }

  lemma NoStatements(p: Program, depth: nat, fuel: nat, sc: Scope, lp: Option<Loop>, st: Store, l: nat, k: nat)
    ensures GenBlock(Nil, sc, lp, l, k) == [] && EvalBlock(p, depth, fuel, Nil, sc, st) == Done(st)
  {
  }

  lemma {:induction false} BlockCorrect(p: Program, c: Ctx, fuel: nat, ss: List<Stmt>, sc: Scope, lp: Option<Loop>, st: Store,
                                        ops: seq<Value>, tries: seq<nat>, l: nat, k: nat, i: nat)
    returns (n: nat, junk: seq<Value>)
    requires StmtReady(p, c, sc, lp, st, tries, PeakBlock(ss, sc))
    requires BlockWellPlaced(ss, c.fn.Some?, lp.Some?) && BlockLinked(ss, p.funs)
    requires Part(c.items, i, GenBlock(ss, sc, lp, l, k)) && Pool(c.consts, k, BlockConsts(ss))
    ensures StmtPost(c, EvalBlock(p, c.Depth(), fuel, ss, sc, st), |st.locals|, lp, c.At(st, ops, tries, i),
                     ops, tries, i + |GenBlock(ss, sc, lp, l, k)|, fuel, n, junk)
    decreases fuel, ss, 6
  {
    hide Run, Ctx.Valid, Ctx.ConfigAt, Ctx.RaiseAt, Pos, MarkedOnce, Unwind, Good, Compiled, Addr, GenBlock, GenStmt, EvalBlock, EvalStmt, BlockConsts,
         StmtConsts, StmtLabels, PeakBlock, After, Peak, Linked, WellPlaced, Part, Pool;
    PartFits(c.items, i, GenBlock(ss, sc, lp, l, k));
    var s := c.At(st, ops, tries, i);
    match ss
    case Nil =>
      assert ops + [] == ops;
      RunZero(c.img, s);
      NoStatements(p, c.Depth(), fuel, sc, lp, st, l, k);
      n, junk := 0, [];
    case Cons(stmt, rest) =>
      BlockIs(p, c.Depth(), fuel, stmt, rest, sc, lp, st, l, k);
      AfterFits(stmt, sc);
      var l1, k1 := l + StmtLabels(stmt), k + |StmtConsts(stmt)|;
      var g, gr := GenStmt(stmt, sc, lp, l, k), GenBlock(rest, After(stmt, sc), lp, l1, k1);
      Split(c.items, i, g, gr);
      PoolSplit(c.consts, k, StmtConsts(stmt), BlockConsts(rest));
      n, junk := StmtCorrect(p, c, fuel, stmt, sc, lp, st, ops, tries, l, k, i);
      var r := EvalStmt(p, c.Depth(), fuel, stmt, sc, st);
      var end := i + |g| + |gr|;
      if r.Done? {
        var n1, junk1 := BlockCorrect(p, c, fuel, rest, After(stmt, sc), lp, r.st, ops + junk, tries, l1, k1, i + |g|);
        StmtAfter(c, EvalBlock(p, c.Depth(), fuel, rest, After(stmt, sc), r.st), |st.locals|, lp, s,
                  c.At(r.st, ops + junk, tries, i + |g|), ops, junk, tries, end, fuel, n, n1, junk1);
        n, junk := n + n1, junk + junk1;
      } else {
        StmtLeaves(c, r, |st.locals|, lp, s, ops, tries, i + |g|, end, fuel, n, junk);
      }
  }

  /** Declarations stay within the peak, and module code has no slots at all. */
  lemma {:induction false} AfterFits(s: Stmt, sc: Scope)
    ensures After(s, sc).Local? == sc.Local?
    ensures After(s, sc).Size() <= Peak(s, sc)
    decreases s, 0
  {
    match s
    case Let(ds) => DeclsKeepKind(ds, sc);
    case If(_, thn, els) => ElseFits(els, sc);
    case _ =>
  }

  lemma {:induction false} ElseFits(els: Else, sc: Scope)
    ensures AfterElse(els, sc).Local? == sc.Local?
    decreases els, 0
  {
    match els
    case NoElse =>
    case ElseIf(s) => AfterFits(s, sc);
    case ElseBlock(body) => BlockFits(body, sc);
  }

  lemma {:induction false} BlockFits(ss: List<Stmt>, sc: Scope)
    ensures AfterBlock(ss, sc).Local? == sc.Local?
    decreases ss, 0
  {
    match ss
    case Nil =>
    case Cons(s, rest) =>
      AfterFits(s, sc);
      BlockFits(rest, After(s, sc));
  }

  lemma {:induction false} DeclsKeepKind(ds: List<Decl>, sc: Scope)
    ensures AfterDecls(ds, sc).Local? == sc.Local?
  {
    match ds
    case Nil =>
    case Cons(d, rest) => DeclsKeepKind(rest, sc.Declare(d.name));
  }

  // ----- statements that are one expression -----

  /** What is done with the value: dropped, thrown or returned. */
  lemma LastStep(c: Ctx, s: Stmt, v: Value, st: Store, lp: Option<Loop>, start: State, ops: seq<Value>, tries: seq<nat>,
                 j: nat, fuel: nat, n: nat)
    requires c.Valid() && j < |c.items| && (s.ExprStmt? || s.Throw? || s.Return?) && (s.Return? ==> c.fn.Some?)
    requires c.items[j] == Op(if s.ExprStmt? then Pop else if s.Throw? then ThrowOp else Ret, 0)
    requires Run(c.img, start, n) == c.At(st, ops + [v], tries, j)
    ensures StmtPost(c, if s.ExprStmt? then Done(st) else if s.Throw? then Threw(v, st) else Returned(v, st),
                     |st.locals|, lp, start, ops, tries, j + 1, fuel, n + 1, [])
  {
    hide Run, Ctx.Valid, Ctx.ConfigAt, Ctx.RaiseAt, Pos, MarkedOnce, Unwind;
    RunAdd(c.img, start, n, 1);
    assert ops + [] == ops;
    if s.ExprStmt? {
      StepPop(c, st, ops, v, tries, j);
    } else if s.Throw? {
      StepThrow(c, st, ops, v, tries, j);
    } else {
      StepRet(c, st, ops, v, tries, j);
    }
  }

  lemma ExprStmtCorrect(p: Program, c: Ctx, fuel: nat, s: Stmt, sc: Scope, lp: Option<Loop>, st: Store,
                        ops: seq<Value>, tries: seq<nat>, l: nat, k: nat, i: nat)
    returns (n: nat, junk: seq<Value>)
    requires s.ExprStmt? || s.Throw? || s.Return?
    requires StmtReady(p, c, sc, lp, st, tries, 0) && (s.Return? ==> c.fn.Some?)
    requires Part(c.items, i, GenStmt(s, sc, lp, l, k)) && Pool(c.consts, k, StmtConsts(s))
    ensures StmtPost(c, EvalStmt(p, c.Depth(), fuel, s, sc, st), |st.locals|, lp, c.At(st, ops, tries, i),
                     ops, tries, i + |GenStmt(s, sc, lp, l, k)|, fuel, n, junk)
    decreases fuel, s, 4
  {
    hide Run, Ctx.Valid, Ctx.ConfigAt, Ctx.RaiseAt, Pos, MarkedOnce, Unwind, Good, Compiled, Addr, GenExpr, GenOpt, EvalExpr, EvalOpt, ExprConsts, OptConsts, Part, Pool;
    PartFits(c.items, i, GenStmt(s, sc, lp, l, k));
    var start := c.At(st, ops, tries, i);
    var g := if s.Return? then GenOpt(s.value, sc, l, k) else GenExpr(s.e, sc, l, k);
    var last := Op(if s.ExprStmt? then Pop else if s.Throw? then ThrowOp else Ret, 0);
    Split(c.items, i, g, [last]);
    var j := i + |g|;
    Item0(c.items, j, [last], 0);
    var r;
    if s.Return? {
      n, junk := OptCorrect(p, c, fuel, s.value, sc, st, ops, tries, l, k, i);
      r := EvalOpt(p, c.Depth(), fuel, s.value, sc, st);
    } else {
      n, junk := ExprCorrect(p, c, fuel, s.e, sc, st, ops, tries, l, k, i);
      r := EvalExpr(p, c.Depth(), fuel, s.e, sc, st);
    }
    if r.Val? {
      LastStep(c, s, r.v, r.st, lp, start, ops, tries, j, fuel, n);
      n, junk := n + 1, [];
    } else {
      StmtFails(c, r, |st.locals|, lp, start, ops, tries, j, j + 1, fuel, n, junk);
    }
  }

  // ----- break and continue -----

  lemma {:induction false} PopsCorrect(c: Ctx, st: Store, ops: seq<Value>, tries: seq<nat>, d: nat, i: nat)
    requires c.Valid() && d <= |tries| && Part(c.items, i, PopTries(d))
    ensures Run(c.img, c.At(st, ops, tries, i), d) == c.At(st, ops, tries[..|tries| - d], i + d)
  {
    hide Run, Ctx.Valid, Ctx.ConfigAt, Ctx.RaiseAt, Pos, MarkedOnce;
    var s := c.At(st, ops, tries, i);
    if d == 0 {
      RunZero(c.img, s);
      assert tries[..|tries| - d] == tries;
    } else {
      var m := |tries| - 1;
      assert PopTries(d) == [Op(PopTry, 0)] + PopTries(d - 1);
      Split(c.items, i, [Op(PopTry, 0)], PopTries(d - 1));
      Item0(c.items, i, [Op(PopTry, 0)], 0);
      assert tries == tries[..m] + [tries[m]];
      StepPopTry(c, st, ops, tries[..m], tries[m], i);
      PopsCorrect(c, st, ops, tries[..m], d - 1, i + 1);
      assert tries[..m][..m - (d - 1)] == tries[..|tries| - d];
      RunAdd(c.img, s, 1, d - 1);
    }
  }

  lemma LeaveCorrect(c: Ctx, lp: Loop, target: nat, st: Store, ops: seq<Value>, tries: seq<nat>, i: nat)
    requires c.Valid() && lp.tries <= |tries|
    requires Part(c.items, i, LeaveTo(Some(lp), target))
    ensures Run(c.img, c.At(st, ops, tries, i), lp.tries + 1)
         == c.AtPc(st, ops, tries[..|tries| - lp.tries], Addr(c.items, target))
  {
    hide Run, Ctx.Valid, Ctx.ConfigAt, Ctx.RaiseAt, Pos, MarkedOnce, Addr, Part, Pool;
    PartFits(c.items, i, LeaveTo(Some(lp), target));
    var ts := tries[..|tries| - lp.tries];
    Split(c.items, i, PopTries(lp.tries), [Ref(Jump, target)]);
    Item0(c.items, i + lp.tries, [Ref(Jump, target)], 0);
    PopsCorrect(c, st, ops, tries, lp.tries, i);
    StepJump(c, st, ops, ts, i + lp.tries);
    RunAdd(c.img, c.At(st, ops, tries, i), lp.tries, 1);
  }

  // ----- the ends of statements -----

  /** A statement followed by its end label. */
  lemma EndLabel(c: Ctx, r: StmtResult, size: nat, lp: Option<Loop>, start: State, ops: seq<Value>, tries: seq<nat>,
               end: nat, fuel: nat, n: nat, junk: seq<Value>)
    requires c.Valid() && 0 < end <= |c.items| && c.items[end - 1].Mark?
    requires StmtPost(c, r, size, lp, start, ops, tries, end - 1, fuel, n, junk)
    ensures StmtPost(c, r, size, lp, start, ops, tries, end, fuel, n, junk)
  {
    hide Run, Ctx.Valid, Ctx.ConfigAt, Ctx.RaiseAt, Pos, MarkedOnce, Unwind, Addr;
    if r.Done? {
      AtLabel(c, r.st, ops + junk, tries, end - 1);
    }
  }

  /** A branch that jumps to the end label when it completes. */
  lemma JumpToEnd(c: Ctx, r: StmtResult, size: nat, lp: Option<Loop>, start: State, ops: seq<Value>, tries: seq<nat>,
                  j: nat, target: nat, end: nat, fuel: nat, n: nat, junk: seq<Value>)
    returns (m: nat)
    requires c.Valid() && j < end <= |c.items| && c.items[j] == Ref(Jump, target) && c.items[end - 1] == Mark(target)
    requires StmtPost(c, r, size, lp, start, ops, tries, j, fuel, n, junk)
    ensures StmtPost(c, r, size, lp, start, ops, tries, end, fuel, m, junk)
  {
    hide Run, Ctx.Valid, Ctx.ConfigAt, Ctx.RaiseAt, Pos, MarkedOnce, Unwind, Addr;
    m := n;
    if r.Done? {
      StepJump(c, r.st, ops + junk, tries, j);
      AtLabel(c, r.st, ops + junk, tries, end - 1);
      RunAdd(c.img, start, n, 1);
      m := n + 1;
    }
  }

  /** Leaving a loop: `break` arrives at its end label, other results pass through. */
  lemma LoopLeft(c: Ctx, r: StmtResult, size: nat, inner: Loop, lp: Option<Loop>, start: State, ops: seq<Value>,
                 tries: seq<nat>, j: nat, end: nat, fuel: nat, n: nat, junk: seq<Value>)
    requires c.Valid() && j <= |c.items| && 0 < end <= |c.items| && !r.Done? && !r.Continued?
    requires c.items[end - 1] == Mark(inner.breakTo) && inner.tries == 0
    requires StmtPost(c, r, size, Some(inner), start, ops, tries, j, fuel, n, junk)
    ensures StmtPost(c, if r.Broke? then Done(r.st) else r, size, lp, start, ops, tries, end, fuel, n, junk)
  {
    hide Run, Ctx.Valid, Ctx.ConfigAt, Ctx.RaiseAt, Pos, MarkedOnce, Unwind, Addr;
    if r.Broke? {
      assert tries[..|tries| - 0] == tries;
      AtLabel(c, r.st, ops + junk, tries, end - 1);
    }
  }

  // ----- if -----

  lemma IfIs(p: Program, depth: nat, fuel: nat, s: Stmt, sc: Scope, lp: Option<Loop>, st: Store, l: nat, k: nat)
    requires s.If?
    ensures var l1, k1 := l + 2 + ExprLabels(s.cond), k + |ExprConsts(s.cond)|;
            GenStmt(s, sc, lp, l, k)
            == IfCode(GenExpr(s.cond, sc, l + 2, k), GenBlock(s.thn, sc, lp, l1, k1),
                      GenElse(s.els, sc, lp, l1 + BlockLabels(s.thn), k1 + |BlockConsts(s.thn)|), l)
    ensures StmtConsts(s) == ExprConsts(s.cond) + BlockConsts(s.thn) + ElseConsts(s.els)
    ensures var r := EvalExpr(p, depth, fuel, s.cond, sc, st);
            EvalStmt(p, depth, fuel, s, sc, st)
            == if !r.Val? then Failed(r)
               else if Truthy(r.v) then EvalBlock(p, depth, fuel, s.thn, sc, r.st)
               else EvalElse(p, depth, fuel, s.els, sc, r.st)
    ensures Peak(s, sc) >= PeakBlock(s.thn, sc) && Peak(s, sc) >= PeakElse(s.els, sc)
  {
    hide IfCode, GenExpr, GenBlock, GenElse, EvalExpr, EvalBlock, EvalElse, ExprConsts, BlockConsts, ElseConsts, Truthy;
  }

  lemma IfCorrect(p: Program, c: Ctx, fuel: nat, s: Stmt, sc: Scope, lp: Option<Loop>, st: Store,
                  ops: seq<Value>, tries: seq<nat>, l: nat, k: nat, i: nat)
    returns (n: nat, junk: seq<Value>)
    requires s.If? && StmtReady(p, c, sc, lp, st, tries, Peak(s, sc))
    requires WellPlaced(s, c.fn.Some?, lp.Some?) && Linked(s, p.funs)
    requires Part(c.items, i, GenStmt(s, sc, lp, l, k)) && Pool(c.consts, k, StmtConsts(s))
    ensures StmtPost(c, EvalStmt(p, c.Depth(), fuel, s, sc, st), |st.locals|, lp, c.At(st, ops, tries, i),
                     ops, tries, i + |GenStmt(s, sc, lp, l, k)|, fuel, n, junk)
    decreases fuel, s, 4
  {
    hide Run, Ctx.Valid, Ctx.ConfigAt, Ctx.RaiseAt, Pos, MarkedOnce, Unwind, Good, Compiled, Addr, IfCode, GenExpr, GenBlock, GenElse, GenStmt, EvalExpr,
         EvalBlock, EvalElse, EvalStmt, ExprConsts, BlockConsts, ElseConsts, StmtConsts, Peak, PeakBlock, PeakElse, Truthy, Part, Pool;
    PartFits(c.items, i, GenStmt(s, sc, lp, l, k));
    IfIs(p, c.Depth(), fuel, s, sc, lp, st, l, k);
    var l1, k1 := l + 2 + ExprLabels(s.cond), k + |ExprConsts(s.cond)|;
    var l2, k2 := l1 + BlockLabels(s.thn), k1 + |BlockConsts(s.thn)|;
    var gc, gt, ge := GenExpr(s.cond, sc, l + 2, k), GenBlock(s.thn, sc, lp, l1, k1), GenElse(s.els, sc, lp, l2, k2);
    IfAt(c.items, i, gc, gt, ge, l);
    PoolSplit(c.consts, k, ExprConsts(s.cond) + BlockConsts(s.thn), ElseConsts(s.els));
    PoolSplit(c.consts, k, ExprConsts(s.cond), BlockConsts(s.thn));
    var t := i + |gc| + 1;
    var e := t + |gt| + 2;
    var end := e + |ge| + 1;
    var start := c.At(st, ops, tries, i);
    n, junk := ExprCorrect(p, c, fuel, s.cond, sc, st, ops, tries, l + 2, k, i);
    var r := EvalExpr(p, c.Depth(), fuel, s.cond, sc, st);
    if !r.Val? {
      StmtFails(c, r, |st.locals|, lp, start, ops, tries, t - 1, end, fuel, n, junk);
    } else {
      StepBranch(c, r.st, ops, r.v, tries, t - 1);
      RunAdd(c.img, start, n, 1);
      assert ops + [] == ops;
      if Truthy(r.v) {
        n, junk := ThenCorrect(p, c, fuel, s.thn, sc, lp, st, r.st, start, n + 1, ops, tries, l, l1, k1, t, end);
      } else {
        AtLabel(c, r.st, ops, tries, e - 1);
        n, junk := OtherwiseCorrect(p, c, fuel, s.els, sc, lp, st, r.st, start, n + 1, ops, tries, l, l2, k2, e);
      }
    }
  }

  /** The other branch, and the label behind it. */
  lemma OtherwiseCorrect(p: Program, c: Ctx, fuel: nat, els: Else, sc: Scope, lp: Option<Loop>, st0: Store, st: Store,
                         start: State, m: nat, ops: seq<Value>, tries: seq<nat>, l: nat, l2: nat, k2: nat, e: nat)
    returns (n: nat, junk: seq<Value>)
    requires StmtReady(p, c, sc, lp, st, tries, PeakElse(els, sc)) && |st.locals| == |st0.locals|
    requires ElseWellPlaced(els, c.fn.Some?, lp.Some?) && ElseLinked(els, p.funs)
    requires Part(c.items, e, GenElse(els, sc, lp, l2, k2)) && Pool(c.consts, k2, ElseConsts(els))
    requires var end := e + |GenElse(els, sc, lp, l2, k2)|; end < |c.items| && c.items[end] == Mark(l + 1)
    requires Run(c.img, start, m) == c.At(st, ops, tries, e)
    ensures StmtPost(c, EvalElse(p, c.Depth(), fuel, els, sc, st), |st0.locals|, lp, start, ops, tries,
                     e + |GenElse(els, sc, lp, l2, k2)| + 1, fuel, n, junk)
    decreases fuel, els, 9
  {
    hide Run, Ctx.Valid, Ctx.ConfigAt, Ctx.RaiseAt, Pos, MarkedOnce, Unwind, Good, Compiled, Addr, GenElse, EvalElse, ElseConsts, PeakElse;
    var end := e + |GenElse(els, sc, lp, l2, k2)| + 1;
    var n1, junk1 := ElseCorrect(p, c, fuel, els, sc, lp, st, ops, tries, l2, k2, e);
    var r1 := EvalElse(p, c.Depth(), fuel, els, sc, st);
    assert ops + [] == ops;
    StmtAfter(c, r1, |st.locals|, lp, start, c.At(st, ops, tries, e), ops, [], tries, end - 1, fuel, m, n1, junk1);
    n, junk := m + n1, [] + junk1;
    EndLabel(c, r1, |st.locals|, lp, start, ops, tries, end, fuel, n, junk);
  }

  /** The first branch, and the jump over the other one. */
  lemma ThenCorrect(p: Program, c: Ctx, fuel: nat, thn: List<Stmt>, sc: Scope, lp: Option<Loop>, st0: Store, st: Store,
                    start: State, m: nat, ops: seq<Value>, tries: seq<nat>, l: nat, l1: nat, k1: nat, t: nat, end: nat)
    returns (n: nat, junk: seq<Value>)
    requires StmtReady(p, c, sc, lp, st, tries, PeakBlock(thn, sc)) && |st.locals| == |st0.locals|
    requires BlockWellPlaced(thn, c.fn.Some?, lp.Some?) && BlockLinked(thn, p.funs)
    requires Part(c.items, t, GenBlock(thn, sc, lp, l1, k1)) && Pool(c.consts, k1, BlockConsts(thn))
    requires var e := t + |GenBlock(thn, sc, lp, l1, k1)|;
             e + 2 <= end <= |c.items| && c.items[e] == Ref(Jump, l + 1) && c.items[end - 1] == Mark(l + 1)
    requires Run(c.img, start, m) == c.At(st, ops, tries, t)
    ensures StmtPost(c, EvalBlock(p, c.Depth(), fuel, thn, sc, st), |st0.locals|, lp, start, ops, tries, end, fuel, n, junk)
    decreases fuel, thn, 9
  {
    hide Run, Ctx.Valid, Ctx.ConfigAt, Ctx.RaiseAt, Pos, MarkedOnce, Unwind, Good, Compiled, Addr, GenBlock, EvalBlock, BlockConsts, PeakBlock;
    var e := t + |GenBlock(thn, sc, lp, l1, k1)|;
    var n1, junk1 := BlockCorrect(p, c, fuel, thn, sc, lp, st, ops, tries, l1, k1, t);
    var r1 := EvalBlock(p, c.Depth(), fuel, thn, sc, st);
    assert ops + [] == ops;
    StmtAfter(c, r1, |st.locals|, lp, start, c.At(st, ops, tries, t), ops, [], tries, e, fuel, m, n1, junk1);
    n, junk := m + n1, [] + junk1;
    n := JumpToEnd(c, r1, |st.locals|, lp, start, ops, tries, e, l + 1, end, fuel, n, junk);
  }

  lemma {:induction false} ElseCorrect(p: Program, c: Ctx, fuel: nat, els: Else, sc: Scope, lp: Option<Loop>, st: Store,
                                       ops: seq<Value>, tries: seq<nat>, l: nat, k: nat, i: nat)
    returns (n: nat, junk: seq<Value>)
    requires StmtReady(p, c, sc, lp, st, tries, PeakElse(els, sc))
    requires ElseWellPlaced(els, c.fn.Some?, lp.Some?) && ElseLinked(els, p.funs)
    requires Part(c.items, i, GenElse(els, sc, lp, l, k)) && Pool(c.consts, k, ElseConsts(els))
    ensures StmtPost(c, EvalElse(p, c.Depth(), fuel, els, sc, st), |st.locals|, lp, c.At(st, ops, tries, i),
                     ops, tries, i + |GenElse(els, sc, lp, l, k)|, fuel, n, junk)
    decreases fuel, els, 6
  {
    hide Run, Ctx.Valid, Ctx.ConfigAt, Ctx.RaiseAt, Pos, MarkedOnce, Unwind, Good, Compiled, Addr, GenBlock, GenStmt, EvalBlock, EvalStmt, BlockConsts,
         StmtConsts, Peak, PeakBlock, Part, Pool;
    PartFits(c.items, i, GenElse(els, sc, lp, l, k));
    match els
    case NoElse =>
      assert ops + [] == ops;
      RunZero(c.img, c.At(st, ops, tries, i));
      n, junk := 0, [];
    case ElseIf(s) => n, junk := StmtCorrect(p, c, fuel, s, sc, lp, st, ops, tries, l, k, i);
    case ElseBlock(body) => n, junk := BlockCorrect(p, c, fuel, body, sc, lp, st, ops, tries, l, k, i);
  }

  // ----- while -----

  lemma WhileIs(p: Program, depth: nat, fuel: nat, s: Stmt, sc: Scope, lp: Option<Loop>, st: Store, l: nat, k: nat)
    requires s.While?
    ensures GenStmt(s, sc, lp, l, k)
         == WhileCode(GenExpr(s.cond, sc, l + 2, k),
                      GenBlock(s.body, sc, Some(Loop(l + 1, l, 0)), l + 2 + ExprLabels(s.cond), k + |ExprConsts(s.cond)|), l)
    ensures StmtConsts(s) == ExprConsts(s.cond) + BlockConsts(s.body)
    ensures Peak(s, sc) == PeakBlock(s.body, sc)
    ensures var r := EvalExpr(p, depth, fuel, s.cond, sc, st);
            EvalWhile(p, depth, fuel, s, sc, st)
            == if !r.Val? then Failed(r)
               else if !Truthy(r.v) then Done(r.st)
               else
                 var r1 := EvalBlock(p, depth, fuel, s.body, sc, r.st);
                 if r1.Done? || r1.Continued? then
                   (if fuel == 0 then OutOfFuel else EvalWhile(p, depth, fuel - 1, s, sc, r1.st))
                 else if r1.Broke? then Done(r1.st)
                 else r1
  {
    hide WhileCode, GenExpr, GenBlock, EvalExpr, EvalBlock, ExprConsts, BlockConsts, Truthy;
  }

  /** The loop from its start label on; every turn takes at least one step. */
  lemma {:induction false} WhileCorrect(p: Program, c: Ctx, fuel: nat, s: Stmt, sc: Scope, lp: Option<Loop>, st: Store,
                                        ops: seq<Value>, tries: seq<nat>, l: nat, k: nat, i: nat)
    returns (n: nat, junk: seq<Value>)
    requires s.While? && StmtReady(p, c, sc, lp, st, tries, Peak(s, sc))
    requires WellPlaced(s, c.fn.Some?, lp.Some?) && Linked(s, p.funs)
    requires Part(c.items, i, GenStmt(s, sc, lp, l, k)) && Pool(c.consts, k, StmtConsts(s))
    ensures StmtPost(c, EvalWhile(p, c.Depth(), fuel, s, sc, st), |st.locals|, lp, c.At(st, ops, tries, i),
                     ops, tries, i + |GenStmt(s, sc, lp, l, k)|, fuel, n, junk)
    decreases fuel, s, 3
  {
    hide Run, Ctx.Valid, Ctx.ConfigAt, Ctx.RaiseAt, Pos, MarkedOnce, Unwind, Good, Compiled, Addr, WhileCode, GenExpr, GenBlock, GenStmt, EvalExpr,
         EvalBlock, EvalWhile, ExprConsts, BlockConsts, StmtConsts, Peak, PeakBlock, Truthy, Part, Pool;
    PartFits(c.items, i, GenStmt(s, sc, lp, l, k));
    WhileIs(p, c.Depth(), fuel, s, sc, lp, st, l, k);
    var l1, k1 := l + 2 + ExprLabels(s.cond), k + |ExprConsts(s.cond)|;
    var lp1 := Loop(l + 1, l, 0);
    var gc, gb := GenExpr(s.cond, sc, l + 2, k), GenBlock(s.body, sc, Some(lp1), l1, k1);
    WhileAt(c.items, i, gc, gb, l);
    PoolSplit(c.consts, k, ExprConsts(s.cond), BlockConsts(s.body));
    var b := i + 1 + |gc| + 1;
    var end := b + |gb| + 2;
    var start := c.At(st, ops, tries, i);
    AtLabel(c, st, ops, tries, i);
    n, junk := ExprCorrect(p, c, fuel, s.cond, sc, st, ops, tries, l + 2, k, i + 1);
    var r := EvalExpr(p, c.Depth(), fuel, s.cond, sc, st);
    if !r.Val? {
      StmtFails(c, r, |st.locals|, lp, start, ops, tries, b - 1, end, fuel, n, junk);
    } else {
      StepBranch(c, r.st, ops, r.v, tries, b - 1);
      RunAdd(c.img, start, n, 1);
      assert ops + [] == ops;
      if !Truthy(r.v) {
        AtLabel(c, r.st, ops, tries, end - 1);
        n, junk := n + 1, [];
      } else {
        var n1, junk1 := BlockCorrect(p, c, fuel, s.body, sc, Some(lp1), r.st, ops, tries, l1, k1, b);
        var r1 := EvalBlock(p, c.Depth(), fuel, s.body, sc, r.st);
        StmtAfter(c, r1, |st.locals|, Some(lp1), start, c.At(r.st, ops, tries, b), ops, [], tries, end - 2, fuel, n + 1, n1, junk1);
        n, junk := n + 1 + n1, [] + junk1;
        assert tries[..|tries| - 0] == tries;
        if r1.Done? || r1.Continued? {
          n := LoopBack(c, r1, lp1, start, ops, tries, end - 2, i, l, fuel, n, junk);
          if fuel > 0 {
            var n2, junk2 := WhileCorrect(p, c, fuel - 1, s, sc, lp, r1.st, ops + junk, tries, l, k, i);
            StmtAfterStep(c, EvalWhile(p, c.Depth(), fuel - 1, s, sc, r1.st), |st.locals|, lp, start,
                          c.At(r1.st, ops + junk, tries, i), ops, junk, tries, end, fuel, n, n2, junk2);
            n, junk := n + n2, junk + junk2;
          }
        } else {
          LoopLeft(c, r1, |st.locals|, lp1, lp, start, ops, tries, end - 2, end, fuel, n, junk);
        }
      }
    }
  }

  /** Falling off the body or continuing leads back to the label `target`. */
  lemma LoopBack(c: Ctx, r: StmtResult, lp: Loop, start: State, ops: seq<Value>, tries: seq<nat>, j: nat, i: nat,
                 target: nat, fuel: nat, n: nat, junk: seq<Value>)
    returns (m: nat)
    requires c.Valid() && (r.Done? || r.Continued?) && i < |c.items| && j < |c.items|
    requires c.items[j] == Ref(Jump, target) && c.items[i] == Mark(target)
    requires lp.continueTo == target && lp.tries == 0 && n > 0
    requires StmtPost(c, r, |r.st.locals|, Some(lp), start, ops, tries, j, fuel, n, junk)
    ensures Run(c.img, start, m) == c.At(r.st, ops + junk, tries, i) && m > 0
  {
    hide Run, Ctx.Valid, Ctx.ConfigAt, Ctx.RaiseAt, Pos, MarkedOnce, Addr;
    AtLabel(c, r.st, ops + junk, tries, i);
    assert tries[..|tries| - 0] == tries;
    m := n;
    if r.Done? {
      StepJump(c, r.st, ops + junk, tries, j);
      RunAdd(c.img, start, n, 1);
      m := n + 1;
    }
  }

  // ----- for -----

  lemma SomeTestCorrect(p: Program, c: Ctx, fuel: nat, e: Expr, sc: Scope, st: Store,
                        ops: seq<Value>, tries: seq<nat>, l: nat, k: nat, end: nat, i: nat)
    returns (n: nat, junk: seq<Value>)
    requires Ready(p, c, sc, st)
    requires Part(c.items, i, GenExpr(e, sc, l, k) + [Ref(JumpIfFalse, end)]) && Pool(c.consts, k, ExprConsts(e))
    ensures var r := EvalExpr(p, c.Depth(), fuel, e, sc, st);
            var j := i + |GenExpr(e, sc, l, k)| + 1;
            if r.Val? then
              && |r.st.locals| == |st.locals|
              && Run(c.img, c.At(st, ops, tries, i), n)
                 == if Truthy(r.v) then c.At(r.st, ops, tries, j) else c.AtPc(r.st, ops, tries, Addr(c.items, end))
            else ExprPost(c, r, |st.locals|, c.At(st, ops, tries, i), ops, tries, j, fuel, n, junk)
    decreases fuel, e, 2
  {
    hide Run, Ctx.Valid, Ctx.ConfigAt, Ctx.RaiseAt, Pos, MarkedOnce, Unwind, GenExpr, EvalExpr, Good, Compiled, Truthy, Addr, Part, Pool;
    PartFits(c.items, i, GenExpr(e, sc, l, k) + [Ref(JumpIfFalse, end)]);
    var start := c.At(st, ops, tries, i);
    var g := GenExpr(e, sc, l, k);
    var j := i + |g|;
    Split(c.items, i, g, [Ref(JumpIfFalse, end)]);
    Item0(c.items, j, [Ref(JumpIfFalse, end)], 0);
    n, junk := ExprCorrect(p, c, fuel, e, sc, st, ops, tries, l, k, i);
    var r := EvalExpr(p, c.Depth(), fuel, e, sc, st);
    if r.Val? {
      StepBranch(c, r.st, ops, r.v, tries, j);
      RunAdd(c.img, start, n, 1);
      n := n + 1;
    } else {
      ExprFailsAnywhere(c, r, |st.locals|, start, ops, tries, j, j + 1, fuel, n, junk);
    }
  }

  /** The test of a `for` loop: on to the body, or to the end label. */
  lemma TestCorrect(p: Program, c: Ctx, fuel: nat, e: Option<Expr>, sc: Scope, st: Store,
                    ops: seq<Value>, tries: seq<nat>, l: nat, k: nat, end: nat, i: nat)
    returns (n: nat, junk: seq<Value>)
    requires Ready(p, c, sc, st)
    requires Part(c.items, i, GenTest(e, sc, l, k, end)) && Pool(c.consts, k, OptConsts(e))
    ensures var r := EvalTest(p, c.Depth(), fuel, e, sc, st);
            var j := i + |GenTest(e, sc, l, k, end)|;
            if r.Val? then
              && |r.st.locals| == |st.locals|
              && Run(c.img, c.At(st, ops, tries, i), n)
                 == if Truthy(r.v) then c.At(r.st, ops, tries, j) else c.AtPc(r.st, ops, tries, Addr(c.items, end))
            else ExprPost(c, r, |st.locals|, c.At(st, ops, tries, i), ops, tries, j, fuel, n, junk)
    decreases fuel, e, 2
  {
    hide Run, Ctx.Valid, Ctx.ConfigAt, Ctx.RaiseAt, Pos, MarkedOnce, Unwind, GenExpr, EvalExpr, Good, Compiled, Truthy, Addr, Part, Pool;
    PartFits(c.items, i, GenTest(e, sc, l, k, end));
    var start := c.At(st, ops, tries, i);
    if e.Some? {
      n, junk := SomeTestCorrect(p, c, fuel, e.value, sc, st, ops, tries, l, k, end, i);
    } else {
      RunZero(c.img, start);
      TrueIsTruthy();
      n, junk := 0, [];
    }
  }

  lemma TrueIsTruthy()
    ensures Truthy(BoolV(true))
  {
  }

  lemma SomeStepCorrect(p: Program, c: Ctx, fuel: nat, e: Expr, sc: Scope, st: Store,
                        ops: seq<Value>, tries: seq<nat>, l: nat, k: nat, i: nat)
    returns (n: nat, junk: seq<Value>)
    requires Ready(p, c, sc, st)
    requires Part(c.items, i, GenExpr(e, sc, l, k) + [Op(Pop, 0)]) && Pool(c.consts, k, ExprConsts(e))
    ensures var r := EvalExpr(p, c.Depth(), fuel, e, sc, st);
            var j := i + |GenExpr(e, sc, l, k)| + 1;
            if r.Val? then
              && |r.st.locals| == |st.locals|
              && Run(c.img, c.At(st, ops, tries, i), n) == c.At(r.st, ops, tries, j)
            else ExprPost(c, r, |st.locals|, c.At(st, ops, tries, i), ops, tries, j, fuel, n, junk)
    decreases fuel, e, 2
  {
    hide Run, Ctx.Valid, Ctx.ConfigAt, Ctx.RaiseAt, Pos, MarkedOnce, Unwind, GenExpr, EvalExpr, Good, Compiled, Part, Pool;
    PartFits(c.items, i, GenExpr(e, sc, l, k) + [Op(Pop, 0)]);
    var start := c.At(st, ops, tries, i);
    var g := GenExpr(e, sc, l, k);
    var j := i + |g|;
    Split(c.items, i, g, [Op(Pop, 0)]);
    Item0(c.items, j, [Op(Pop, 0)], 0);
    n, junk := ExprCorrect(p, c, fuel, e, sc, st, ops, tries, l, k, i);
    var r := EvalExpr(p, c.Depth(), fuel, e, sc, st);
    if r.Val? {
      StepPop(c, r.st, ops, r.v, tries, j);
      RunAdd(c.img, start, n, 1);
      n := n + 1;
    } else {
      ExprFailsAnywhere(c, r, |st.locals|, start, ops, tries, j, j + 1, fuel, n, junk);
    }
  }

  /** The step of a `for` loop leaves nothing on the stack. */
  lemma StepCorrect(p: Program, c: Ctx, fuel: nat, e: Option<Expr>, sc: Scope, st: Store,
                    ops: seq<Value>, tries: seq<nat>, l: nat, k: nat, i: nat)
    returns (n: nat, junk: seq<Value>)
    requires Ready(p, c, sc, st)
    requires Part(c.items, i, GenStep(e, sc, l, k)) && Pool(c.consts, k, OptConsts(e))
    ensures var r := EvalOpt(p, c.Depth(), fuel, e, sc, st);
            var j := i + |GenStep(e, sc, l, k)|;
            if r.Val? then
              |r.st.locals| == |st.locals| && Run(c.img, c.At(st, ops, tries, i), n) == c.At(r.st, ops, tries, j)
            else ExprPost(c, r, |st.locals|, c.At(st, ops, tries, i), ops, tries, j, fuel, n, junk)
    decreases fuel, e, 2
  {
    hide Run, Ctx.Valid, Ctx.ConfigAt, Ctx.RaiseAt, Pos, MarkedOnce, Unwind, GenExpr, EvalExpr, Good, Compiled, Truthy, Addr, ExprConsts, ExprPost, Part, Pool;
    PartFits(c.items, i, GenStep(e, sc, l, k));
    var start := c.At(st, ops, tries, i);
    if e.Some? {
      n, junk := SomeStepCorrect(p, c, fuel, e.value, sc, st, ops, tries, l, k, i);
    } else {
      RunZero(c.img, start);
      n, junk := 0, [];
    }
  }

  lemma ForTurn(p: Program, depth: nat, fuel: nat, s: Stmt, sc: Scope, st: Store)
    requires s.For?
    ensures var r := EvalTest(p, depth, fuel, s.test, sc, st);
            EvalFor(p, depth, fuel, s, sc, st)
            == if !r.Val? then Failed(r)
               else if !Truthy(r.v) then Done(r.st)
               else
                 var r1 := EvalBlock(p, depth, fuel, s.body, sc, r.st);
                 if r1.Done? || r1.Continued? then
                   var r2 := EvalOpt(p, depth, fuel, s.step, sc, r1.st);
                   if !r2.Val? then Failed(r2)
                   else if fuel == 0 then OutOfFuel
                   else EvalFor(p, depth, fuel - 1, s, sc, r2.st)
                 else if r1.Broke? then Done(r1.st)
                 else r1
  {
    hide EvalTest, EvalBlock, EvalOpt, Truthy;
  }

  /** The loop from its start label on.  `l1` and `k1` are the first label and constant of
      its test. */
  lemma {:induction false} ForCorrect(p: Program, c: Ctx, fuel: nat, s: Stmt, sc: Scope, lp: Option<Loop>, st: Store,
                                      ops: seq<Value>, tries: seq<nat>, l: nat, l1: nat, k1: nat, i: nat)
    returns (n: nat, junk: seq<Value>)
    requires s.For? && StmtReady(p, c, sc, lp, st, tries, PeakBlock(s.body, sc))
    requires BlockWellPlaced(s.body, c.fn.Some?, true) && BlockLinked(s.body, p.funs)
    requires Part(c.items, i, ForItems(s, sc, l, l1, k1))
    requires Pool(c.consts, k1, OptConsts(s.test) + OptConsts(s.step) + BlockConsts(s.body))
    ensures StmtPost(c, EvalFor(p, c.Depth(), fuel, s, sc, st), |st.locals|, lp, c.At(st, ops, tries, i),
                     ops, tries, i + |ForItems(s, sc, l, l1, k1)|, fuel, n, junk)
    decreases fuel, s, 3
  {
    hide Run, Ctx.Valid, Ctx.ConfigAt, Ctx.RaiseAt, Pos, MarkedOnce, Unwind, Good, Compiled, Addr, ForCode, GenTest, GenStep, GenBlock,
         EvalTest, EvalOpt, EvalBlock, EvalFor, OptConsts, BlockConsts, PeakBlock, Truthy, OptLabels, Part, Pool;
    PartFits(c.items, i, ForItems(s, sc, l, l1, k1));
    ForTurn(p, c.Depth(), fuel, s, sc, st);
    var l2, k2 := l1 + OptLabels(s.test), k1 + |OptConsts(s.test)|;
    var l3, k3 := l2 + OptLabels(s.step), k2 + |OptConsts(s.step)|;
    var lp1 := Loop(l + 1, l + 2, 0);
    var gt, gs := GenTest(s.test, sc, l1, k1, l + 1), GenStep(s.step, sc, l2, k2);
    var gb := GenBlock(s.body, sc, Some(lp1), l3, k3);
    ForAt(c.items, i, gt, gs, gb, l);
    PoolSplit(c.consts, k1, OptConsts(s.test) + OptConsts(s.step), BlockConsts(s.body));
    PoolSplit(c.consts, k1, OptConsts(s.test), OptConsts(s.step));
    var t := i + 1 + |gt| + 2;
    var b := t + |gs| + 2;
    var end := b + |gb| + 2;
    var start := c.At(st, ops, tries, i);
    AtLabel(c, st, ops, tries, i);
    n, junk := TestCorrect(p, c, fuel, s.test, sc, st, ops, tries, l1, k1, l + 1, i + 1);
    var r := EvalTest(p, c.Depth(), fuel, s.test, sc, st);
    assert ops + [] == ops;
    if !r.Val? {
      StmtFails(c, r, |st.locals|, lp, start, ops, tries, t - 2, end, fuel, n, junk);
    } else if !Truthy(r.v) {
      AtLabel(c, r.st, ops, tries, end - 1);
      junk := [];
    } else {
      StepJump(c, r.st, ops, tries, t - 2);
      AtLabel(c, r.st, ops, tries, b - 1);
      RunAdd(c.img, start, n, 1);
      n, junk := ForBody(p, c, fuel, s, sc, lp, st, r.st, start, n + 1, ops, tries, l, l1, k1, i);
    }
  }

  /** From the body of a `for` loop: the body, and what follows from its outcome. */
  lemma ForBody(p: Program, c: Ctx, fuel: nat, s: Stmt, sc: Scope, lp: Option<Loop>, st0: Store, st: Store,
                start: State, m: nat, ops: seq<Value>, tries: seq<nat>, l: nat, l1: nat, k1: nat, i: nat)
    returns (n: nat, junk: seq<Value>)
    requires s.For? && StmtReady(p, c, sc, lp, st, tries, PeakBlock(s.body, sc)) && |st.locals| == |st0.locals|
    requires BlockWellPlaced(s.body, c.fn.Some?, true) && BlockLinked(s.body, p.funs)
    requires Part(c.items, i, ForItems(s, sc, l, l1, k1))
    requires Pool(c.consts, k1, OptConsts(s.test) + OptConsts(s.step) + BlockConsts(s.body))
    requires var b := i + 1 + |GenTest(s.test, sc, l1, k1, l + 1)| + 2
                      + |GenStep(s.step, sc, l1 + OptLabels(s.test), k1 + |OptConsts(s.test)|)| + 2;
             b <= |c.items| && m > 0 && Run(c.img, start, m) == c.At(st, ops, tries, b)
    ensures var r := EvalBlock(p, c.Depth(), fuel, s.body, sc, st);
            StmtPost(c, if r.Done? || r.Continued? then
                          (var r2 := EvalOpt(p, c.Depth(), fuel, s.step, sc, r.st);
                           if !r2.Val? then Failed(r2)
                           else if fuel == 0 then OutOfFuel
                           else EvalFor(p, c.Depth(), fuel - 1, s, sc, r2.st))
                        else if r.Broke? then Done(r.st) else r,
                     |st0.locals|, lp, start, ops, tries, i + |ForItems(s, sc, l, l1, k1)|, fuel, n, junk)
    decreases fuel, s, 2
  {
    hide Run, Ctx.Valid, Ctx.ConfigAt, Ctx.RaiseAt, Pos, MarkedOnce, Unwind, Good, Compiled, Addr, ForCode, GenTest, GenStep, GenBlock,
         EvalTest, EvalOpt, EvalBlock, EvalFor, OptConsts, BlockConsts, PeakBlock, Truthy, OptLabels, Part, Pool;
    PartFits(c.items, i, ForItems(s, sc, l, l1, k1));
    var l2, k2 := l1 + OptLabels(s.test), k1 + |OptConsts(s.test)|;
    var l3, k3 := l2 + OptLabels(s.step), k2 + |OptConsts(s.step)|;
    var lp1 := Loop(l + 1, l + 2, 0);
    var gt, gs := GenTest(s.test, sc, l1, k1, l + 1), GenStep(s.step, sc, l2, k2);
    var gb := GenBlock(s.body, sc, Some(lp1), l3, k3);
    ForAt(c.items, i, gt, gs, gb, l);
    PoolSplit(c.consts, k1, OptConsts(s.test) + OptConsts(s.step), BlockConsts(s.body));
    var t := i + 1 + |gt| + 2;
    var b := t + |gs| + 2;
    var end := b + |gb| + 2;
    assert ops + [] == ops;
    var n1, junk1 := BlockCorrect(p, c, fuel, s.body, sc, Some(lp1), st, ops, tries, l3, k3, b);
    var r1 := EvalBlock(p, c.Depth(), fuel, s.body, sc, st);
    StmtAfter(c, r1, |st.locals|, Some(lp1), start, c.At(st, ops, tries, b), ops, [], tries, end - 2, fuel, m, n1, junk1);
    n, junk := m + n1, [] + junk1;
    if r1.Done? || r1.Continued? {
      n := LoopBack(c, r1, lp1, start, ops, tries, end - 2, t - 1, l + 2, fuel, n, junk);
      AtLabel(c, r1.st, ops + junk, tries, t - 1);
      n, junk := ForNext(p, c, fuel, s, sc, lp, st0, r1.st, start, n, junk, ops, tries, l, l1, k1, i);
    } else {
      LoopLeft(c, r1, |st.locals|, lp1, lp, start, ops, tries, end - 2, end, fuel, n, junk);
    }
  }

  function ForItems(s: Stmt, sc: Scope, l: nat, l1: nat, k1: nat): seq<Item>
    requires s.For?
  {
    var l2, k2 := l1 + OptLabels(s.test), k1 + |OptConsts(s.test)|;
    var l3, k3 := l2 + OptLabels(s.step), k2 + |OptConsts(s.step)|;
    ForCode(GenTest(s.test, sc, l1, k1, l + 1), GenStep(s.step, sc, l2, k2),
            GenBlock(s.body, sc, Some(Loop(l + 1, l + 2, 0)), l3, k3), l)
  }

  /** From the step of a `for` loop: the step, and the next turn. */
  lemma ForNext(p: Program, c: Ctx, fuel: nat, s: Stmt, sc: Scope, lp: Option<Loop>, st0: Store, st: Store,
                start: State, m: nat, pre: seq<Value>,
                ops: seq<Value>, tries: seq<nat>, l: nat, l1: nat, k1: nat, i: nat)
    returns (n: nat, junk: seq<Value>)
    requires s.For? && StmtReady(p, c, sc, lp, st, tries, PeakBlock(s.body, sc)) && |st.locals| == |st0.locals|
    requires BlockWellPlaced(s.body, c.fn.Some?, true) && BlockLinked(s.body, p.funs)
    requires Part(c.items, i, ForItems(s, sc, l, l1, k1))
    requires Pool(c.consts, k1, OptConsts(s.test) + OptConsts(s.step) + BlockConsts(s.body))
    requires var t := i + 1 + |GenTest(s.test, sc, l1, k1, l + 1)| + 2;
             t <= |c.items| && Run(c.img, start, m) == c.At(st, ops + pre, tries, t)
    ensures var r := EvalOpt(p, c.Depth(), fuel, s.step, sc, st);
            StmtPost(c, if !r.Val? then Failed(r)
                        else if fuel == 0 then OutOfFuel
                        else EvalFor(p, c.Depth(), fuel - 1, s, sc, r.st),
                     |st0.locals|, lp, start, ops, tries, i + |ForItems(s, sc, l, l1, k1)|, fuel, n, junk)
    decreases fuel, s, 1
  {
    hide Run, Ctx.Valid, Ctx.ConfigAt, Ctx.RaiseAt, Pos, MarkedOnce, Unwind, Good, Compiled, Addr, ForCode, GenTest, GenStep, GenBlock,
         EvalOpt, EvalBlock, EvalFor, OptConsts, BlockConsts, PeakBlock, OptLabels, Part, Pool;
    PartFits(c.items, i, ForItems(s, sc, l, l1, k1));
    var l2, k2 := l1 + OptLabels(s.test), k1 + |OptConsts(s.test)|;
    var l3, k3 := l2 + OptLabels(s.step), k2 + |OptConsts(s.step)|;
    var gt, gs := GenTest(s.test, sc, l1, k1, l + 1), GenStep(s.step, sc, l2, k2);
    var gb := GenBlock(s.body, sc, Some(Loop(l + 1, l + 2, 0)), l3, k3);
    ForAt(c.items, i, gt, gs, gb, l);
    PoolSplit(c.consts, k1, OptConsts(s.test) + OptConsts(s.step), BlockConsts(s.body));
    PoolSplit(c.consts, k1, OptConsts(s.test), OptConsts(s.step));
    var t := i + 1 + |gt| + 2;
    var b := t + |gs| + 2;
    var end := b + |gb| + 2;
    var n1, junk1 := StepCorrect(p, c, fuel, s.step, sc, st, ops + pre, tries, l2, k2, t);
    var r := EvalOpt(p, c.Depth(), fuel, s.step, sc, st);
    if r.Val? {
      StepJump(c, r.st, ops + pre, tries, b - 2);
      AtLabel(c, r.st, ops + pre, tries, i);
      RunAdd(c.img, start, m, n1);
      RunAdd(c.img, start, m + n1, 1);
      n, junk := m + n1 + 1, pre;
      if fuel > 0 {
        var n2, junk2 := ForCorrect(p, c, fuel - 1, s, sc, lp, r.st, ops + pre, tries, l, l1, k1, i);
        StmtAfterStep(c, EvalFor(p, c.Depth(), fuel - 1, s, sc, r.st), |st0.locals|, lp, start,
                      c.At(r.st, ops + pre, tries, i), ops, pre, tries, end, fuel, n, n2, junk2);
        n, junk := n + n2, pre + junk2;
      }
    } else {
      ExprFails(c, r, |st.locals|, start, c.At(st, ops + pre, tries, t), pre, ops, tries, b - 2, end, fuel, m, n1, junk1);
      n, junk := m + n1, pre + junk1;
      StmtFails(c, r, |st0.locals|, lp, start, ops, tries, end, end, fuel, n, junk);
    }
  }

  lemma ForIs(p: Program, depth: nat, fuel: nat, s: Stmt, sc: Scope, lp: Option<Loop>, st: Store, l: nat, k: nat)
    requires s.For?
    ensures GenStmt(s, sc, lp, l, k)
         == (if s.init.Some? then GenStmt(s.init.value, sc, lp, l + 4, k) else [])
            + ForItems(s, AfterInit(s.init, sc), l, l + 4 + InitLabels(s.init), k + |InitConsts(s.init)|)
    ensures StmtConsts(s) == InitConsts(s.init) + (OptConsts(s.test) + OptConsts(s.step) + BlockConsts(s.body))
    ensures Peak(s, sc) >= PeakBlock(s.body, AfterInit(s.init, sc))
    ensures s.init.Some? ==> Peak(s, sc) >= Peak(s.init.value, sc)
    ensures EvalStmt(p, depth, fuel, s, sc, st)
         == if s.init.None? then EvalFor(p, depth, fuel, s, sc, st)
            else
              var r := EvalStmt(p, depth, fuel, s.init.value, sc, st);
              if r.Done? then EvalFor(p, depth, fuel, s, After(s.init.value, sc), r.st) else r
  {
    hide ForCode, GenTest, GenStep, GenBlock, EvalFor, OptConsts, BlockConsts, PeakBlock, OptLabels;
  }

  lemma ForStmtCorrect(p: Program, c: Ctx, fuel: nat, s: Stmt, sc: Scope, lp: Option<Loop>, st: Store,
                       ops: seq<Value>, tries: seq<nat>, l: nat, k: nat, i: nat)
    returns (n: nat, junk: seq<Value>)
    requires s.For? && StmtReady(p, c, sc, lp, st, tries, Peak(s, sc))
    requires WellPlaced(s, c.fn.Some?, lp.Some?) && Linked(s, p.funs)
    requires Part(c.items, i, GenStmt(s, sc, lp, l, k)) && Pool(c.consts, k, StmtConsts(s))
    ensures StmtPost(c, EvalStmt(p, c.Depth(), fuel, s, sc, st), |st.locals|, lp, c.At(st, ops, tries, i),
                     ops, tries, i + |GenStmt(s, sc, lp, l, k)|, fuel, n, junk)
    decreases fuel, s, 4
  {
    hide Run, Ctx.Valid, Ctx.ConfigAt, Ctx.RaiseAt, Pos, MarkedOnce, Unwind, Good, Compiled, Addr, GenStmt, ForItems, EvalFor, EvalStmt,
         OptConsts, BlockConsts, StmtConsts, PeakBlock, Peak, InitLabels, Part, Pool;
    PartFits(c.items, i, GenStmt(s, sc, lp, l, k));
    ForIs(p, c.Depth(), fuel, s, sc, lp, st, l, k);
    var sc1, l1, k1 := AfterInit(s.init, sc), l + 4 + InitLabels(s.init), k + |InitConsts(s.init)|;
    var rest := OptConsts(s.test) + OptConsts(s.step) + BlockConsts(s.body);
    var gi := if s.init.Some? then GenStmt(s.init.value, sc, lp, l + 4, k) else [];
    var gf := ForItems(s, sc1, l, l1, k1);
    Split(c.items, i, gi, gf);
    PoolSplit(c.consts, k, InitConsts(s.init), rest);
    var start := c.At(st, ops, tries, i);
    var end := i + |gi| + |gf|;
    if s.init.None? {
      n, junk := ForCorrect(p, c, fuel, s, sc, lp, st, ops, tries, l, l1, k1, i);
    } else {
      AfterFits(s.init.value, sc);
      n, junk := StmtCorrect(p, c, fuel, s.init.value, sc, lp, st, ops, tries, l + 4, k, i);
      var r := EvalStmt(p, c.Depth(), fuel, s.init.value, sc, st);
      if r.Done? {
        var n1, junk1 := ForCorrect(p, c, fuel, s, sc1, lp, r.st, ops + junk, tries, l, l1, k1, i + |gi|);
        StmtAfter(c, EvalFor(p, c.Depth(), fuel, s, sc1, r.st), |st.locals|, lp, start,
                  c.At(r.st, ops + junk, tries, i + |gi|), ops, junk, tries, end, fuel, n, n1, junk1);
        n, junk := n + n1, junk + junk1;
      } else {
        StmtLeaves(c, r, |st.locals|, lp, start, ops, tries, i + |gi|, end, fuel, n, junk);
      }
    }
  }

  // ----- try -----

  lemma TryIs(p: Program, depth: nat, fuel: nat, s: Stmt, sc: Scope, lp: Option<Loop>, st: Store, l: nat, k: nat)
    requires s.Try?
    ensures GenStmt(s, sc, lp, l, k)
         == TryCode(GenBlock(s.body, sc, Deeper(lp), l + 2, k), GenCatch(s.name, sc),
                    GenBlock(s.handler, CatchScope(s.name, sc), lp, l + 2 + BlockLabels(s.body), k + |BlockConsts(s.body)|), l)
    ensures StmtConsts(s) == BlockConsts(s.body) + BlockConsts(s.handler)
    ensures Peak(s, sc) >= PeakBlock(s.body, sc) && Peak(s, sc) >= PeakBlock(s.handler, CatchScope(s.name, sc))
    ensures PeakBlock(s.handler, CatchScope(s.name, sc)) >= CatchScope(s.name, sc).Size()
    ensures var r := EvalBlock(p, depth, fuel, s.body, sc, st);
            EvalStmt(p, depth, fuel, s, sc, st)
            == if r.Threw? then
                 EvalBlock(p, depth, fuel, s.handler, CatchScope(s.name, sc), Caught(s.name, sc, r.st, r.err))
               else r
  {
    hide TryCode, GenBlock, EvalBlock, BlockConsts;
  }

  function Caught(name: Option<Name>, sc: Scope, st: Store, err: Value): Store {
    if name.Some? then DeclareVar(name.value, sc, st, err) else st
  }

  /** The start of a catch clause: the error value is bound or dropped. */
  lemma CatchCorrect(c: Ctx, name: Option<Name>, sc: Scope, st: Store, err: Value, ops: seq<Value>, tries: seq<nat>, i: nat)
    returns (n: nat)
    requires c.Valid() && Fits(c, sc, st) && Part(c.items, i, GenCatch(name, sc))
    requires CatchScope(name, sc).Size() <= |st.locals|
    ensures Run(c.img, c.At(st, ops + [err], tries, i), n)
         == c.At(Caught(name, sc, st, err), ops, tries, i + |GenCatch(name, sc)|)
    ensures Fits(c, CatchScope(name, sc), Caught(name, sc, st, err)) && |Caught(name, sc, st, err).locals| == |st.locals|
  {
    hide Run, Ctx.Valid, Ctx.ConfigAt, Ctx.RaiseAt, Pos, MarkedOnce;
    if name.Some? {
      n := DeclareCorrect(c, name.value, sc, st, err, ops, tries, i);
    } else {
      Item0(c.items, i, [Op(Pop, 0)], 0);
      StepPop(c, st, ops, err, tries, i);
      n := 1;
    }
  }

  lemma TryCorrect(p: Program, c: Ctx, fuel: nat, s: Stmt, sc: Scope, lp: Option<Loop>, st: Store,
                   ops: seq<Value>, tries: seq<nat>, l: nat, k: nat, i: nat)
    returns (n: nat, junk: seq<Value>)
    requires s.Try? && StmtReady(p, c, sc, lp, st, tries, Peak(s, sc))
    requires WellPlaced(s, c.fn.Some?, lp.Some?) && Linked(s, p.funs)
    requires Part(c.items, i, GenStmt(s, sc, lp, l, k)) && Pool(c.consts, k, StmtConsts(s))
    ensures StmtPost(c, EvalStmt(p, c.Depth(), fuel, s, sc, st), |st.locals|, lp, c.At(st, ops, tries, i),
                     ops, tries, i + |GenStmt(s, sc, lp, l, k)|, fuel, n, junk)
    decreases fuel, s, 4
  {
    hide Run, Ctx.ConfigAt, Ctx.RaiseAt, Pos, MarkedOnce, Unwind, Good, Compiled, Addr, GenStmt, TryCode, GenBlock, GenCatch, Caught, EvalBlock, EvalStmt,
         BlockConsts, StmtConsts, PeakBlock, Peak, Part, Pool;
    PartFits(c.items, i, GenStmt(s, sc, lp, l, k));
    TryIs(p, c.Depth(), fuel, s, sc, lp, st, l, k);
    var l1, k1 := l + 2 + BlockLabels(s.body), k + |BlockConsts(s.body)|;
    var sc1 := CatchScope(s.name, sc);
    var gb, gn := GenBlock(s.body, sc, Deeper(lp), l + 2, k), GenCatch(s.name, sc);
    var gh := GenBlock(s.handler, sc1, lp, l1, k1);
    TryAt(c.items, i, gb, gn, gh, l);
    PoolSplit(c.consts, k, BlockConsts(s.body), BlockConsts(s.handler));
    var h := i + 1 + |gb| + 4;
    var end := h + |gn| + |gh| + 1;
    var start := c.At(st, ops, tries, i);
    var a := Addr(c.items, l);
    AtLabel(c, st, ops, tries, h - 2);
    AddrOfMark(c.items, h - 2);
    StepPushTry(c, st, ops, tries, i);
    var n1, junk1 := BlockCorrect(p, c, fuel, s.body, sc, Deeper(lp), st, ops, tries + [a], l + 2, k, i + 1);
    var r := EvalBlock(p, c.Depth(), fuel, s.body, sc, st);
    RunAdd(c.img, start, 1, n1);
    n, junk := 1 + n1, junk1;
    if r.Threw? {
      n, junk := HandlerCorrect(p, c, fuel, s, sc, lp, st, r.st, r.err, start, n, junk, ops, tries, l, k, i);
    } else {
      n := TryLeft(c, r, |st.locals|, lp, start, ops, tries, a, h - 4, l, end, fuel, n, junk);
    }
  }

  /** From the raised error to the end of the catch clause. */
  lemma HandlerCorrect(p: Program, c: Ctx, fuel: nat, s: Stmt, sc: Scope, lp: Option<Loop>, st0: Store, st: Store, err: Value,
                       start: State, m: nat, pre: seq<Value>, ops: seq<Value>, tries: seq<nat>, l: nat, k: nat, i: nat)
    returns (n: nat, junk: seq<Value>)
    requires s.Try? && StmtReady(p, c, sc, lp, st, tries, Peak(s, sc)) && |st.locals| == |st0.locals|
    requires WellPlaced(s, c.fn.Some?, lp.Some?) && Linked(s, p.funs)
    requires Part(c.items, i, GenStmt(s, sc, lp, l, k)) && Pool(c.consts, k, StmtConsts(s))
    requires Run(c.img, start, m) == c.RaiseAt(st, ops + pre, tries + [Addr(c.items, l)], err)
    ensures StmtPost(c, EvalBlock(p, c.Depth(), fuel, s.handler, CatchScope(s.name, sc), Caught(s.name, sc, st, err)),
                     |st0.locals|, lp, start, ops, tries, i + |GenStmt(s, sc, lp, l, k)|, fuel, n, junk)
    decreases fuel, s, 3
  {
    hide Run, Ctx.ConfigAt, Ctx.RaiseAt, Pos, MarkedOnce, Unwind, Good, Compiled, Addr, GenStmt, TryCode, GenBlock, GenCatch,
         Caught, EvalBlock, EvalStmt, BlockConsts, StmtConsts, PeakBlock, Peak, Part, Pool;
    PartFits(c.items, i, GenStmt(s, sc, lp, l, k));
    TryIs(p, c.Depth(), fuel, s, sc, lp, st, l, k);
    var l1, k1 := l + 2 + BlockLabels(s.body), k + |BlockConsts(s.body)|;
    var sc1 := CatchScope(s.name, sc);
    var gb, gn := GenBlock(s.body, sc, Deeper(lp), l + 2, k), GenCatch(s.name, sc);
    var gh := GenBlock(s.handler, sc1, lp, l1, k1);
    TryAt(c.items, i, gb, gn, gh, l);
    PoolSplit(c.consts, k, BlockConsts(s.body), BlockConsts(s.handler));
    var h := i + 1 + |gb| + 4;
    var end := h + |gn| + |gh| + 1;
    AddrOfMark(c.items, h - 2);
    StepCatch(c, st, ops + pre, tries, err, h - 1);
    RunAdd(c.img, start, m, 1);
    var m1 := CatchCorrect(c, s.name, sc, st, err, ops + pre, tries, h);
    RunAdd(c.img, start, m + 1, m1);
    var st1 := Caught(s.name, sc, st, err);
    var n2, junk2 := BlockCorrect(p, c, fuel, s.handler, sc1, lp, st1, ops + pre, tries, l1, k1, h + |gn|);
    var r2 := EvalBlock(p, c.Depth(), fuel, s.handler, sc1, st1);
    StmtAfter(c, r2, |st.locals|, lp, start, c.At(st1, ops + pre, tries, h + |gn|), ops, pre, tries, end - 1,
              fuel, m + 1 + m1, n2, junk2);
    n, junk := m + 1 + m1 + n2, pre + junk2;
    EndLabel(c, r2, |st.locals|, lp, start, ops, tries, end, fuel, n, junk);
  }

  /** Leaving the body of a try without an error: falling off its end pops the try and
      skips the catch clause; `break` and `continue` have popped it already. */
  lemma TryLeft(c: Ctx, r: StmtResult, size: nat, lp: Option<Loop>, start: State, ops: seq<Value>, tries: seq<nat>,
                a: nat, j: nat, l: nat, end: nat, fuel: nat, n: nat, junk: seq<Value>)
    returns (m: nat)
    requires c.Valid() && !r.Threw? && j + 1 < end <= |c.items| && (lp.Some? ==> lp.value.tries <= |tries|)
    requires c.items[j] == Op(PopTry, 0) && c.items[j + 1] == Ref(Jump, l + 1) && c.items[end - 1] == Mark(l + 1)
    requires match r
             case Done(st) => Run(c.img, start, n) == c.At(st, ops + junk, tries + [a], j) && |st.locals| == size
             case Broke(st) =>
               && lp.Some? && |st.locals| == size
               && Run(c.img, start, n)
                  == c.AtPc(st, ops + junk, (tries + [a])[..|tries| - lp.value.tries], Addr(c.items, lp.value.breakTo))
             case Continued(st) =>
               && lp.Some? && |st.locals| == size
               && Run(c.img, start, n)
                  == c.AtPc(st, ops + junk, (tries + [a])[..|tries| - lp.value.tries], Addr(c.items, lp.value.continueTo))
             case Returned(v, st) => c.fn.Some? && Run(c.img, start, n) == c.ReturnAt(st, v) && |st.locals| == size
             case Threw(_, _) => true
             case Ended => Run(c.img, start, n) == Stopped
             case OutOfFuel => n >= fuel && Run(c.img, start, n).Running?
    ensures StmtPost(c, r, size, lp, start, ops, tries, end, fuel, m, junk)
  {
    hide Run, Ctx.Valid, Ctx.ConfigAt, Ctx.RaiseAt, Pos, MarkedOnce, Unwind, Addr;
    m := n;
    if r.Done? {
      StepPopTry(c, r.st, ops + junk, tries, a, j);
      StepJump(c, r.st, ops + junk, tries, j + 1);
      AtLabel(c, r.st, ops + junk, tries, end - 1);
      RunAdd(c.img, start, n, 1);
      RunAdd(c.img, start, n + 1, 1);
      m := n + 2;
    } else if r.Broke? || r.Continued? {
      assert (tries + [a])[..|tries| - lp.value.tries] == tries[..|tries| - lp.value.tries];
    }
  }

  // ----- all statements -----

  lemma FunStmtCorrect(p: Program, c: Ctx, fuel: nat, s: Stmt, sc: Scope, lp: Option<Loop>, st: Store,
                       ops: seq<Value>, tries: seq<nat>, l: nat, k: nat, i: nat)
    returns (n: nat, junk: seq<Value>)
    requires s.Fun? && sc == Global && StmtReady(p, c, sc, lp, st, tries, 0)
    requires Part(c.items, i, GenStmt(s, sc, lp, l, k)) && Pool(c.consts, k, StmtConsts(s))
    ensures StmtPost(c, EvalStmt(p, c.Depth(), fuel, s, sc, st), |st.locals|, lp, c.At(st, ops, tries, i),
                     ops, tries, i + |GenStmt(s, sc, lp, l, k)|, fuel, n, junk)
  {
    hide Run, Ctx.Valid, Ctx.ConfigAt, Ctx.RaiseAt, Pos, MarkedOnce, Unwind, Good, Compiled, GenDeclare;
    Split(c.items, i, [Op(LoadConst, k)], GenDeclare(s.decl.name, sc));
    Item0(c.items, i, [Op(LoadConst, k)], 0);
    assert c.consts[k..k + 1][0] == c.consts[k];
    StepFunConst(c, st, ops, tries, i, s.index);
    var st1 := st.(allocs := st.allocs + 1);
    var m := DeclareCorrect(c, s.decl.name, sc, st1, FunV(s.index, st.allocs), ops, tries, i + 1);
    RunAdd(c.img, c.At(st, ops, tries, i), 1, m);
    assert ops + [] == ops;
    n, junk := 1 + m, [];
  }

  lemma {:induction false} StmtCorrect(p: Program, c: Ctx, fuel: nat, s: Stmt, sc: Scope, lp: Option<Loop>, st: Store,
                                        ops: seq<Value>, tries: seq<nat>, l: nat, k: nat, i: nat)
    returns (n: nat, junk: seq<Value>)
    requires StmtReady(p, c, sc, lp, st, tries, Peak(s, sc))
    requires WellPlaced(s, c.fn.Some?, lp.Some?) && Linked(s, p.funs)
    requires Part(c.items, i, GenStmt(s, sc, lp, l, k)) && Pool(c.consts, k, StmtConsts(s))
    ensures StmtPost(c, EvalStmt(p, c.Depth(), fuel, s, sc, st), |st.locals|, lp, c.At(st, ops, tries, i),
                     ops, tries, i + |GenStmt(s, sc, lp, l, k)|, fuel, n, junk)
    decreases fuel, s, 5
  {
    hide Run, Ctx.Valid, Ctx.ConfigAt, Ctx.RaiseAt, Pos, MarkedOnce, Unwind, Good, Compiled, Addr, IfCode, WhileCode, ForCode, TryCode, GenExpr, GenOpt, GenBlock,
         GenElse, GenDecls, GenTest, GenStep, EvalExpr, EvalOpt, EvalBlock, EvalElse, EvalDecls, EvalWhile, EvalFor,
         ExprConsts, BlockConsts, ElseConsts, DeclsConsts, PeakBlock, PeakElse, DeclareVar, GenDeclare, LeaveTo, Part, Pool;
    PartFits(c.items, i, GenStmt(s, sc, lp, l, k));
    match s
    case ExprStmt(_) => n, junk := ExprStmtCorrect(p, c, fuel, s, sc, lp, st, ops, tries, l, k, i);
    case Let(ds) => n, junk := DeclsCorrect(p, c, fuel, ds, sc, lp, st, ops, tries, l, k, i);
    case If(_, _, _) => n, junk := IfCorrect(p, c, fuel, s, sc, lp, st, ops, tries, l, k, i);
    case While(_, _) => n, junk := WhileCorrect(p, c, fuel, s, sc, lp, st, ops, tries, l, k, i);
    case For(_, _, _, _) => n, junk := ForStmtCorrect(p, c, fuel, s, sc, lp, st, ops, tries, l, k, i);
    case Break =>
      LeaveCorrect(c, lp.value, lp.value.breakTo, st, ops, tries, i);
      assert ops + [] == ops;
      n, junk := lp.value.tries + 1, [];
    case Continue =>
      LeaveCorrect(c, lp.value, lp.value.continueTo, st, ops, tries, i);
      assert ops + [] == ops;
      n, junk := lp.value.tries + 1, [];
    case Return(_) => n, junk := ExprStmtCorrect(p, c, fuel, s, sc, lp, st, ops, tries, l, k, i);
    case Throw(_) => n, junk := ExprStmtCorrect(p, c, fuel, s, sc, lp, st, ops, tries, l, k, i);
    case Try(_, _, _) => n, junk := TryCorrect(p, c, fuel, s, sc, lp, st, ops, tries, l, k, i);
    case Fun(_, _) => n, junk := FunStmtCorrect(p, c, fuel, s, sc, lp, st, ops, tries, l, k, i);
  }
}
