/** Three scripts whose results are known in advance, for every number in them: a loop that
    sums, a loop that is left from inside a `try`, and a recursion up to the depth limit. */
module Programs {
  import opened Syntax
  import opened Values
  import opened Semantics
  import opened Machine
  import opened Activation
  import opened Outcomes
  import opened Meaning

  const COUNT: Name := 0
  const TOTAL: Name := 1
  const CAUGHT: Name := 2

  function Number(n: int): Expr { Const(IntLit(n)) }

  function Sum(n: nat): nat { if n == 0 then 0 else Sum(n - 1) + n }

  lemma {:induction false} SumGrows(m: nat, n: nat)
    requires m <= n
    ensures Sum(m) <= Sum(n) && n <= Sum(n)
  {
    if m < n {
      SumGrows(m, n - 1);
    } else if n > 0 {
      SumGrows(n - 1, n - 1);
    }
  }

  /** The globals with two of these. */
  function Holding(st: Store, i: int, t: int): Store {
    st.(globals := st.globals[COUNT := IntV(i)][TOTAL := IntV(t)])
  }

  // ----- a loop that sums -----

  /** `for (let i = 1; i <= n; i++) { if (i == k) { continue; } total += i; }` */
  function SumLoop(n: int, k: int): Stmt {
    For(Some(Let(Cons(Decl(COUNT, Some(Number(1))), Nil))), Some(Binary(Le, Var(COUNT), Number(n))), Some(Bump(COUNT, true)), SumBody(k))
  }

  function SumBody(k: int): List<Stmt> {
    Cons(If(Binary(Eq, Var(COUNT), Number(k)), Cons(Continue, Nil), NoElse), ADDING)
  }

  const ADDING: List<Stmt> := Cons(ExprStmt(OpAssign(TOTAL, Add, Var(COUNT))), Nil)

  /** The sum without one of the numbers. */
  function SumBut(n: nat, k: nat): int { Sum(n) - if 1 <= k <= n then k else 0 }

  lemma Comparing(op: BinOp, p: Program, depth: nat, fuel: nat, i: int, n: int, t: int, st: Store)
    requires op in {Le, Eq} && 0 <= i <= INT_MAX && 0 <= n <= INT_MAX
    ensures EvalExpr(p, depth, fuel, Binary(op, Var(COUNT), Number(n)), Global, Holding(st, i, t))
         == Val(BoolV(if op == Le then i <= n else i == n), Holding(st, i, t))
  {
    var s := Holding(st, i, t);
    assert EvalExpr(p, depth, fuel, Var(COUNT), Global, s) == Val(IntV(i), s);
    assert EvalExpr(p, depth, fuel, Number(n), Global, s) == Val(IntV(n), s);
  }

  lemma AddingUp(p: Program, depth: nat, fuel: nat, i: int, t: int, st: Store)
    requires IsInt64(i + t)
    ensures EvalBlock(p, depth, fuel, ADDING, Global, Holding(st, i, t)) == Done(Holding(st, i, t + i))
  {
    var s := Holding(st, i, t);
    assert EvalExpr(p, depth, fuel, Var(COUNT), Global, s) == Val(IntV(i), s);
    assert ApplyBinary(Add, IntV(t), IntV(i)) == Yield(IntV(t + i));
    assert EvalExpr(p, depth, fuel, OpAssign(TOTAL, Add, Var(COUNT)), Global, s) == Val(IntV(t + i), Holding(st, i, t + i));
    assert EvalStmt(p, depth, fuel, ExprStmt(OpAssign(TOTAL, Add, Var(COUNT))), Global, s) == Done(Holding(st, i, t + i));
  }

  lemma Summing(p: Program, depth: nat, fuel: nat, i: nat, k: nat, t: int, st: Store)
    requires IsInt64(i + t) && i <= INT_MAX && k <= INT_MAX
    ensures EvalBlock(p, depth, fuel, SumBody(k), Global, Holding(st, i, t))
         == if i == k then Continued(Holding(st, i, t)) else Done(Holding(st, i, t + i))
  {
    var s := Holding(st, i, t);
    var skip := SumBody(k).head;
    Comparing(Eq, p, depth, fuel, i, k, t, st);
    if i == k {
      assert EvalBlock(p, depth, fuel, Cons(Continue, Nil), Global, s) == Continued(s);
      assert EvalStmt(p, depth, fuel, skip, Global, s) == Continued(s);
    } else {
      assert EvalStmt(p, depth, fuel, skip, Global, s) == Done(s);
      assert After(skip, Global) == Global;
      AddingUp(p, depth, fuel, i, t, st);
    }
  }

  lemma Counting(p: Program, depth: nat, fuel: nat, i: int, t: int, st: Store)
    requires 0 <= i < INT_MAX
    ensures EvalExpr(p, depth, fuel, Bump(COUNT, true), Global, Holding(st, i, t)) == Val(IntV(i), Holding(st, i + 1, t))
  {
    assert ApplyBump(true, IntV(i)) == Yield(IntV(i + 1));
    assert Holding(st, i, t).globals[COUNT := IntV(i + 1)] == Holding(st, i + 1, t).globals;
  }

  lemma {:induction false} SumFrom(p: Program, depth: nat, fuel: nat, i: nat, n: nat, k: nat, st: Store)
    requires 1 <= i <= n + 1 && n < INT_MAX && k <= INT_MAX && Sum(n) <= INT_MAX && fuel + i > n
    ensures EvalFor(p, depth, fuel, SumLoop(n, k), Global, Holding(st, i, SumBut(i - 1, k))) == Done(Holding(st, n + 1, SumBut(n, k)))
    decreases n + 1 - i
  {
    hide EvalExpr, EvalBlock;
    var t := SumBut(i - 1, k);
    Comparing(Le, p, depth, fuel, i, n, t, st);
    SumGrows(i - 1, i - 1);
    if i <= n {
      SumGrows(i, n);
      Summing(p, depth, fuel, i, k, t, st);
      Counting(p, depth, fuel, i, SumBut(i, k), st);
      SumFrom(p, depth, fuel - 1, i + 1, n, k, st);
    }
  }

  lemma Starting(p: Program, depth: nat, fuel: nat, n: nat, k: nat, st: Store)
    ensures EvalStmt(p, depth, fuel, SumLoop(n, k).init.value, Global, st) == Done(st.(globals := st.globals[COUNT := IntV(1)]))
  {
    var d, st1 := Decl(COUNT, Some(Number(1))), st.(globals := st.globals[COUNT := IntV(1)]);
    assert EvalExpr(p, depth, fuel, Number(1), Global, st) == Val(IntV(1), st);
    assert EvalOpt(p, depth, fuel, d.init, Global, st) == Val(IntV(1), st);
    assert EvalDecls(p, depth, fuel, Nil, Global.Declare(COUNT), st1) == Done(st1);
    assert EvalDecls(p, depth, fuel, Cons(d, Nil), Global, st) == Done(st1);
  }

  /** The sum of the numbers up to `n` without `k`, whatever the other variables hold. */
  lemma SumIsRight(p: Program, depth: nat, fuel: nat, n: nat, k: nat, st: Store)
    requires n < INT_MAX && k <= INT_MAX && Sum(n) <= INT_MAX && fuel >= n && TOTAL in st.globals && st.globals[TOTAL] == IntV(0)
    ensures EvalStmt(p, depth, fuel, SumLoop(n, k), Global, st) == Done(Holding(st, n + 1, SumBut(n, k)))
  {
    hide EvalFor;
    Starting(p, depth, fuel, n, k, st);
    assert st.globals[COUNT := IntV(1)] == Holding(st, 1, 0).globals;
    SumFrom(p, depth, fuel, 1, n, k, st);
  }

  // ----- branches and operands -----

  /** The right operand of `&&` and `||` is evaluated only when the left one does not decide,
      and is then the value. */
  lemma ShortCircuits(p: Program, depth: nat, fuel: nat, e: Expr, sc: Scope, st: Store)
    ensures EvalExpr(p, depth, fuel, Logic(true, Const(FalseLit), e), sc, st) == Val(BoolV(false), st)
    ensures EvalExpr(p, depth, fuel, Logic(true, Const(TrueLit), e), sc, st) == EvalExpr(p, depth, fuel, e, sc, st)
    ensures EvalExpr(p, depth, fuel, Logic(false, Const(TrueLit), e), sc, st) == Val(BoolV(true), st)
    ensures EvalExpr(p, depth, fuel, Logic(false, Const(FalseLit), e), sc, st) == EvalExpr(p, depth, fuel, e, sc, st)
  {
    assert EvalExpr(p, depth, fuel, Const(TrueLit), sc, st) == Val(BoolV(true), st);
    assert EvalExpr(p, depth, fuel, Const(FalseLit), sc, st) == Val(BoolV(false), st);
  }

  lemma Branches(p: Program, depth: nat, fuel: nat, t: List<Stmt>, u: List<Stmt>, sc: Scope, st: Store)
    ensures EvalStmt(p, depth, fuel, If(Const(TrueLit), t, ElseBlock(u)), sc, st) == EvalBlock(p, depth, fuel, t, sc, st)
    ensures EvalStmt(p, depth, fuel, If(Const(FalseLit), t, ElseBlock(u)), sc, st) == EvalBlock(p, depth, fuel, u, sc, st)
  {
    assert EvalExpr(p, depth, fuel, Const(TrueLit), sc, st) == Val(BoolV(true), st);
    assert EvalExpr(p, depth, fuel, Const(FalseLit), sc, st) == Val(BoolV(false), st);
  }

  /** What is null: a variable without initialiser, and the result of a body that ends
      without `return`. */
  lemma Defaults(p: Program, depth: nat, fuel: nat, x: Name, st: Store, st1: Store)
    ensures EvalStmt(p, depth, fuel, Let(Cons(Decl(x, None), Nil)), Global, st) == Done(st.(globals := st.globals[x := NullV]))
    ensures Leave(EvalBlock(p, depth, fuel, Nil, Global, st1), st) == Val(NullV, st1.(locals := st.locals))
  {
    var st2 := st.(globals := st.globals[x := NullV]);
    assert EvalOpt(p, depth, fuel, None, Global, st) == Val(NullV, st);
    assert EvalDecls(p, depth, fuel, Nil, Global.Declare(x), st2) == Done(st2);
    assert EvalDecls(p, depth, fuel, Cons(Decl(x, None), Nil), Global, st) == Done(st2);
  }

  /** The left operand comes first: `(count = a) - count` is zero, and `count - (count = a)`
      is the old value less the new one. */
  lemma LeftFirst(p: Program, depth: nat, fuel: nat, a: int, b: int, t: int, st: Store)
    requires IsInt64(a) && IsInt64(b) && IsInt64(b - a)
    ensures EvalExpr(p, depth, fuel, Binary(Sub, Assign(COUNT, Number(a)), Var(COUNT)), Global, Holding(st, b, t)) == Val(IntV(0), Holding(st, a, t))
    ensures EvalExpr(p, depth, fuel, Binary(Sub, Var(COUNT), Assign(COUNT, Number(a))), Global, Holding(st, b, t))
         == Val(IntV(b - a), Holding(st, a, t))
  {
    var s, s1 := Holding(st, b, t), Holding(st, a, t);
    assert s.globals[COUNT := IntV(a)] == s1.globals;
    assert EvalExpr(p, depth, fuel, Number(a), Global, s) == Val(IntV(a), s);
    assert EvalExpr(p, depth, fuel, Assign(COUNT, Number(a)), Global, s) == Val(IntV(a), s1);
    assert EvalExpr(p, depth, fuel, Var(COUNT), Global, s1) == Val(IntV(a), s1);
    assert EvalExpr(p, depth, fuel, Var(COUNT), Global, s) == Val(IntV(b), s);
    assert ApplyBinary(Sub, IntV(a), IntV(a)) == Checked(a - a, "-");
    assert ApplyBinary(Sub, IntV(b), IntV(a)) == Checked(b - a, "-");
  }

  // ----- a loop that is left from inside a `try` -----

  /** `while (true) { try { if (count == n) { break; } count++; throw count; }
      catch (caught) { total += caught; } }` */
  function TryLoop(n: int): Stmt { While(Const(TrueLit), Cons(TryOnce(n), Nil)) }

  function TryOnce(n: int): Stmt { Try(Attempt(n), Some(CAUGHT), HANDLER) }

  function Attempt(n: int): List<Stmt> {
    Cons(If(Binary(Eq, Var(COUNT), Number(n)), Cons(Break, Nil), NoElse), ATTEMPT_REST)
  }

  const ATTEMPT_REST: List<Stmt> := Cons(ExprStmt(Bump(COUNT, true)), Cons(Throw(Var(COUNT)), Nil))
  const HANDLER: List<Stmt> := Cons(ExprStmt(OpAssign(TOTAL, Add, Var(CAUGHT))), Nil)

  function Noted(st: Store, e: int): Store { st.(globals := st.globals[CAUGHT := IntV(e)]) }

  lemma Attempting(p: Program, depth: nat, fuel: nat, i: nat, n: nat, t: int, st: Store)
    requires i <= n < INT_MAX
    ensures EvalBlock(p, depth, fuel, Attempt(n), Global, Holding(st, i, t))
         == if i == n then Broke(Holding(st, i, t)) else Threw(IntV(i + 1), Holding(st, i + 1, t))
  {
    var s, s1 := Holding(st, i, t), Holding(st, i + 1, t);
    var stop := If(Binary(Eq, Var(COUNT), Number(n)), Cons(Break, Nil), NoElse);
    Comparing(Eq, p, depth, fuel, i, n, t, st);
    if i == n {
      assert EvalBlock(p, depth, fuel, Cons(Break, Nil), Global, s) == Broke(s);
      assert EvalStmt(p, depth, fuel, stop, Global, s) == Broke(s);
    } else {
      assert EvalStmt(p, depth, fuel, stop, Global, s) == Done(s);
      assert After(stop, Global) == Global;
      Counting(p, depth, fuel, i, t, st);
      Throwing(p, depth, fuel, i, t, st);
    }
  }

  lemma Throwing(p: Program, depth: nat, fuel: nat, i: nat, t: int, st: Store)
    requires i < INT_MAX
    ensures EvalBlock(p, depth, fuel, ATTEMPT_REST, Global, Holding(st, i, t)) == Threw(IntV(i + 1), Holding(st, i + 1, t))
  {
    var s1 := Holding(st, i + 1, t);
    Counting(p, depth, fuel, i, t, st);
    assert EvalExpr(p, depth, fuel, Var(COUNT), Global, s1) == Val(IntV(i + 1), s1);
    assert EvalStmt(p, depth, fuel, Throw(Var(COUNT)), Global, s1) == Threw(IntV(i + 1), s1);
    assert EvalBlock(p, depth, fuel, Cons(Throw(Var(COUNT)), Nil), Global, s1) == Threw(IntV(i + 1), s1);
  }

  lemma Handling(p: Program, depth: nat, fuel: nat, i: int, e: int, t: int, st: Store)
    requires IsInt64(t + e)
    ensures EvalBlock(p, depth, fuel, HANDLER, Global, Holding(Noted(st, e), i, t)) == Done(Holding(Noted(st, e), i, t + e))
  {
    var s := Holding(Noted(st, e), i, t);
    assert EvalExpr(p, depth, fuel, Var(CAUGHT), Global, s) == Val(IntV(e), s);
    assert ApplyBinary(Add, IntV(t), IntV(e)) == Yield(IntV(t + e));
    assert EvalExpr(p, depth, fuel, OpAssign(TOTAL, Add, Var(CAUGHT)), Global, s) == Val(IntV(t + e), Holding(Noted(st, e), i, t + e));
  }

  lemma TryingOnce(p: Program, depth: nat, fuel: nat, i: nat, n: nat, t: int, st: Store)
    requires i <= n < INT_MAX && IsInt64(t + i + 1)
    ensures EvalBlock(p, depth, fuel, Cons(TryOnce(n), Nil), Global, Holding(st, i, t))
         == if i == n then Broke(Holding(st, i, t)) else Done(Holding(Noted(st, i + 1), i + 1, t + i + 1))
  {
    hide EvalExpr;
    var s := Holding(st, i, t);
    Attempting(p, depth, fuel, i, n, t, st);
    if i < n {
      var s1 := Holding(Noted(st, i + 1), i + 1, t);
      assert DeclareVar(CAUGHT, Global, Holding(st, i + 1, t), IntV(i + 1)) == s1 by {
        assert Holding(st, i + 1, t).globals[CAUGHT := IntV(i + 1)] == s1.globals;
      }
      Handling(p, depth, fuel, i + 1, i + 1, t, st);
      assert EvalStmt(p, depth, fuel, TryOnce(n), Global, s) == Done(Holding(Noted(st, i + 1), i + 1, t + (i + 1)));
    } else {
      assert EvalStmt(p, depth, fuel, TryOnce(n), Global, s) == Broke(s);
    }
  }

  /** Every number up to `n` has been thrown, caught and added when the loop is left. */
  lemma {:induction false} TryIsRight(p: Program, depth: nat, fuel: nat, i: nat, n: nat, st: Store)
    requires i <= n < INT_MAX && Sum(n) + n < INT_MAX && fuel + i >= n
    ensures EvalStmt(p, depth, fuel, TryLoop(n), Global, Holding(st, i, Sum(i)))
         == Done(Holding(if i < n then Noted(st, n) else st, n, Sum(n)))
    decreases n - i
  {
    hide EvalExpr, EvalBlock;
    var s := Holding(st, i, Sum(i));
    SumGrows(i, n);
    TryingOnce(p, depth, fuel, i, n, Sum(i), st);
    assert EvalExpr(p, depth, fuel, Const(TrueLit), Global, s) == Val(BoolV(true), s) by { True(p, depth, fuel, s); }
    if i < n {
      TryIsRight(p, depth, fuel - 1, i + 1, n, Noted(st, i + 1));
      assert Noted(Noted(st, i + 1), n) == Noted(st, n);
    }
  }

  lemma True(p: Program, depth: nat, fuel: nat, st: Store)
    ensures EvalExpr(p, depth, fuel, Const(TrueLit), Global, st) == Val(BoolV(true), st)
  {
  }

  // ----- recursion -----

  const DOWN: Name := 3
  const N: Name := 4

  /** `function down(n) { if (n == 0) { return 0; } return 1 + down(n - 1); }` */
  const DOWN_BODY: List<Stmt> :=
    Cons(If(Binary(Eq, Var(N), Number(0)), Cons(Return(Some(Number(0))), Nil), NoElse),
         Cons(Return(Some(Binary(Add, Number(1), DOWN_CALL))), Nil))
  const DOWN_CALL: Expr := Call(Var(DOWN), Cons(Binary(Sub, Var(N), Number(1)), Nil))
  const DOWN_DECL: FunDecl := FunDecl(DOWN, [N], DOWN_BODY)

  /** Inside the function: the argument in the only slot, and the function itself global. */
  ghost predicate Within(p: Program, st: Store, n: int) {
    && p.funs == [DOWN_DECL] && st.locals == [IntV(n)]
    && DOWN in st.globals && st.globals[DOWN].FunV? && st.globals[DOWN].code == 0
  }

  lemma BodyHasOneSlot()
    ensures BodySlots(DOWN_DECL) == 1
  {
    assert PeakBlock(Cons(Return(Some(Number(0))), Nil), Local([N])) == 1;
    assert PeakBlock(Cons(Return(Some(Binary(Add, Number(1), DOWN_CALL))), Nil), Local([N])) == 1;
  }

  lemma InBody(p: Program, depth: nat, fuel: nat, st: Store, n: int)
    requires Within(p, st, n) && 0 <= n <= INT_MAX
    ensures EvalExpr(p, depth, fuel, Var(N), Local([N]), st) == Val(IntV(n), st)
    ensures EvalExpr(p, depth, fuel, Binary(Eq, Var(N), Number(0)), Local([N]), st) == Val(BoolV(n == 0), st)
    ensures n > 0 ==> EvalExpr(p, depth, fuel, Binary(Sub, Var(N), Number(1)), Local([N]), st) == Val(IntV(n - 1), st)
    ensures EvalExpr(p, depth, fuel, Var(DOWN), Local([N]), st) == Val(st.globals[DOWN], st)
  {
    assert LastIndex([N], N) == Some(0);
    assert LastIndex([N], DOWN) == None;
    assert EvalExpr(p, depth, fuel, Var(N), Local([N]), st) == Val(IntV(n), st);
    assert EvalExpr(p, depth, fuel, Number(0), Local([N]), st) == Val(IntV(0), st);
    assert EvalExpr(p, depth, fuel, Number(1), Local([N]), st) == Val(IntV(1), st);
    assert ApplyBinary(Sub, IntV(n), IntV(1)) == Checked(n - 1, "-");
  }

  /** One call from inside the body, when the callee's body does what is said. */
  lemma Calling(p: Program, depth: nat, fuel: nat, st: Store, n: int, r: StmtResult)
    requires Within(p, st, n) && 0 < n <= INT_MAX && depth < 1000
    requires depth + 1 < 1000 ==> fuel > 0 && r == EvalBlock(p, depth + 1, fuel - 1, DOWN_BODY, Local([N]), st.(locals := [IntV(n - 1)]))
    ensures EvalExpr(p, depth, fuel, DOWN_CALL, Local([N]), st)
         == if depth + 1 < 1000 then Leave(r, st) else Err(StrV("Stack overflow"), st)
  {
    hide EvalBlock;
    var arg := Binary(Sub, Var(N), Number(1));
    InBody(p, depth, fuel, st, n);
    BodyHasOneSlot();
    assert EvalArgs(p, depth, fuel, Nil, Local([N]), st) == Vals([], st);
    assert EvalArgs(p, depth, fuel, Cons(arg, Nil), Local([N]), st) == Vals([IntV(n - 1)] + [], st);
    assert [IntV(n - 1)] + [] == [IntV(n - 1)];
    if depth + 1 < 1000 {
      assert [IntV(n - 1)] + seq(0, _ => NullV) == [IntV(n - 1)];
      assert Enter(p, depth, st.globals[DOWN], [IntV(n - 1)], st) == Body(DOWN_DECL, [IntV(n - 1)]);
    }
  }

  lemma {:induction false} DownBody(p: Program, depth: nat, fuel: nat, n: nat, st: Store)
    requires Within(p, st, n) && n <= INT_MAX && depth < 1000 && (fuel >= n || fuel + depth >= 1000)
    ensures EvalBlock(p, depth, fuel, DOWN_BODY, Local([N]), st)
         == if depth + n < 1000 then Returned(IntV(n), st) else Threw(StrV("Stack overflow"), st)
    decreases n
  {
    hide EvalExpr;
    InBody(p, depth, fuel, st, n);
    var again := Return(Some(Binary(Add, Number(1), DOWN_CALL)));
    var first := If(Binary(Eq, Var(N), Number(0)), Cons(Return(Some(Number(0))), Nil), NoElse);
    if n == 0 {
      assert EvalExpr(p, depth, fuel, Number(0), Local([N]), st) == Val(IntV(0), st) by { NumberIs(p, depth, fuel, 0, Local([N]), st); }
      assert EvalStmt(p, depth, fuel, Return(Some(Number(0))), Local([N]), st) == Returned(IntV(0), st);
      assert EvalStmt(p, depth, fuel, first, Local([N]), st) == Returned(IntV(0), st);
    } else {
      var st1 := st.(locals := [IntV(n - 1)]);
      var r := EvalBlock(p, depth + 1, fuel - 1, DOWN_BODY, Local([N]), st1);
      if depth + 1 < 1000 {
        DownBody(p, depth + 1, fuel - 1, n - 1, st1);
        assert st1.(locals := st.locals) == st;
      }
      Calling(p, depth, fuel, st, n, r);
      Adding(p, depth, fuel, n, st);
      assert EvalStmt(p, depth, fuel, first, Local([N]), st) == Done(st);
      assert After(first, Local([N])) == Local([N]);
      var e := EvalExpr(p, depth, fuel, again.value.value, Local([N]), st);
      assert EvalStmt(p, depth, fuel, again, Local([N]), st) == if e.Val? then Returned(e.v, e.st) else Failed(e);
      assert EvalBlock(p, depth, fuel, Cons(again, Nil), Local([N]), st) == EvalStmt(p, depth, fuel, again, Local([N]), st);
    }
  }

  lemma NumberIs(p: Program, depth: nat, fuel: nat, n: int, sc: Scope, st: Store)
    ensures EvalExpr(p, depth, fuel, Number(n), sc, st) == Val(IntV(n), st)
  {
  }

  lemma Adding(p: Program, depth: nat, fuel: nat, n: nat, st: Store)
    requires 0 < n <= INT_MAX
    ensures var r := EvalExpr(p, depth, fuel, DOWN_CALL, Local([N]), st);
            var e := EvalExpr(p, depth, fuel, Binary(Add, Number(1), DOWN_CALL), Local([N]), st);
            && (r == Val(IntV(n - 1), st) ==> e == Val(IntV(n), st))
            && (r.Err? ==> e == r)
  {
    NumberIs(p, depth, fuel, 1, Local([N]), st);
    assert ApplyBinary(Add, IntV(1), IntV(n - 1)) == Checked(1 + (n - 1), "+");
  }

  /** The function, and `let total = down(k);` */
  function DownScript(k: nat): Program {
    var call := Call(Var(DOWN), Cons(Number(k), Nil));
    Program(Cons(Fun(0, DOWN_DECL), Cons(Let(Cons(Decl(TOTAL, Some(call)), Nil)), Nil)), [DOWN_DECL], [])
  }

  lemma ModuleCalls(k: nat, fuel: nat, globals: map<Name, Value>)
    requires k <= INT_MAX && fuel > k && fuel >= 1000
    ensures var g := globals[DOWN := FunV(0, 0)];
            EvalModule(DownScript(k), fuel, globals)
            == if k <= 997 then Done(Store([], g[TOTAL := IntV(k)], 1)) else Threw(StrV("Stack overflow"), Store([], g, 1))
  {
    hide EvalExpr;
    var p, st := DownScript(k), Store([], globals[DOWN := FunV(0, 0)], 1);
    var call := Call(Var(DOWN), Cons(Number(k), Nil));
    DownBody(p, 2, fuel - 1, k, st.(locals := [IntV(k)]));
    FirstCall(p, fuel, k, st);
    var ds := Cons(Decl(TOTAL, Some(call)), Nil);
    assert EvalOpt(p, 1, fuel, Some(call), Global, st) == EvalExpr(p, 1, fuel, call, Global, st);
    var r := EvalExpr(p, 1, fuel, call, Global, st);
    assert r.Val? ==> EvalDecls(p, 1, fuel, Nil, Global.Declare(TOTAL), DeclareVar(TOTAL, Global, st, r.v)) == Done(DeclareVar(TOTAL, Global, st, r.v));
    assert EvalDecls(p, 1, fuel, ds, Global, st) == if k <= 997 then Done(Store([], st.globals[TOTAL := IntV(k)], 1)) else Threw(StrV("Stack overflow"), st);
    assert EvalStmt(p, 1, fuel, Fun(0, DOWN_DECL), Global, Store([], globals, 0)) == Done(st);
    assert EvalStmt(p, 1, fuel, Let(ds), Global, st) == EvalDecls(p, 1, fuel, ds, Global, st);
    assert EvalBlock(p, 1, fuel, Cons(Let(ds), Nil), Global, st) == EvalStmt(p, 1, fuel, Let(ds), Global, st);
    assert After(Fun(0, DOWN_DECL), Global) == Global;
  }

  lemma FirstCall(p: Program, fuel: nat, k: nat, st: Store)
    requires p.funs == [DOWN_DECL] && st.locals == [] && DOWN in st.globals && st.globals[DOWN] == FunV(0, 0) && fuel > 0
    ensures EvalExpr(p, 1, fuel, Call(Var(DOWN), Cons(Number(k), Nil)), Global, st)
         == Leave(EvalBlock(p, 2, fuel - 1, DOWN_BODY, Local([N]), st.(locals := [IntV(k)])), st)
  {
    hide EvalBlock;
    BodyHasOneSlot();
    NumberIs(p, 1, fuel, k, Global, st);
    assert EvalExpr(p, 1, fuel, Var(DOWN), Global, st) == Val(FunV(0, 0), st);
    assert EvalArgs(p, 1, fuel, Nil, Global, st) == Vals([], st);
    assert EvalArgs(p, 1, fuel, Cons(Number(k), Nil), Global, st) == Vals([IntV(k)] + [], st);
    assert [IntV(k)] + [] == [IntV(k)];
    assert [IntV(k)] + seq(0, _ => NullV) == [IntV(k)];
    assert Enter(p, 1, FunV(0, 0), [IntV(k)], st) == Body(DOWN_DECL, [IntV(k)]);
  }

  /** 999 activations run, the module's among them, and the 1000th is an error: the compiled
      script ends with the answer when `k` is at most 997, and otherwise with the error. */
  lemma DepthLimit(k: nat, img: Image, globals: map<Name, Value>) returns (n: nat)
    requires k <= INT_MAX && Compiled(DownScript(k), img)
    ensures var s := Run(img, Start(globals), n);
            if k <= 997 then s.Halted? && TOTAL in s.globals && s.globals[TOTAL] == IntV(k)
            else s.Uncaught? && s.err == StrV("Stack overflow")
  {
    hide EvalBlock, Compiled, Run, DownScript, Good;
    var fuel := k + 1000;
    ModuleCalls(k, fuel, globals);
    ScriptIsGood(k);
    var o := FinalState(EvalModule(DownScript(k), fuel, globals)).value;
    assert Concludes(DownScript(k), globals, o);
    MeaningPreserved(DownScript(k), img, globals, o);
    n :| Run(img, Start(globals), n) == o;
  }

  lemma BodyIsPlaced(funs: seq<FunDecl>)
    ensures BlockWellPlaced(DOWN_BODY, true, false) && BlockLinked(DOWN_BODY, funs)
  {
    var first, again := DOWN_BODY.head, DOWN_BODY.tail;
    var inner := Cons(Return(Some(Number(0))), Nil);
    assert BlockWellPlaced(inner, true, false) && BlockLinked(inner, funs);
    assert WellPlaced(first, true, false) && Linked(first, funs);
    assert BlockWellPlaced(again, true, false) && BlockLinked(again, funs);
  }

  lemma ScriptIsGood(k: nat)
    ensures Good(DownScript(k))
  {
    hide BlockWellPlaced, BlockLinked;
    var p := DownScript(k);
    BodyIsPlaced(p.funs);
    ModuleIsPlaced(k);
    assert p.funs[0].body == DOWN_BODY;
  }

  lemma ModuleIsPlaced(k: nat)
    ensures BlockWellPlaced(DownScript(k).body, false, false) && BlockLinked(DownScript(k).body, DownScript(k).funs)
  {
    var p := DownScript(k);
    var d, rest := p.body.head, p.body.tail;
    BodyIsPlaced(p.funs);
    assert BlockWellPlaced(rest, false, false) && BlockLinked(rest, p.funs);
    assert WellPlaced(d, false, false) && Linked(d, p.funs);
  }

  /** What is called but no function, and what is called with too little. */
  lemma CallErrors(p: Program, depth: nat, st: Store, vs: seq<Value>, d: FunDecl, id: nat)
    requires d.params != [] && p.funs == [d]
    ensures Enter(p, depth, NullV, vs, st) == Refuse(Err(StrV("Value of type 'null' is not callable\n"), st))
    ensures forall n :: Enter(p, depth, IntV(n), vs, st) == Refuse(Err(StrV("Value of type 'integer' is not callable\n"), st))
    ensures |vs| < |d.params| ==>
              Enter(p, depth, FunV(0, id), vs, st) == Refuse(Err(StrV("Too few arguments to function '" + p.Text(d.name) + "'\n"), st))
    ensures |vs| >= |d.params| && depth < 999 ==> Enter(p, depth, FunV(0, id), vs, st).Body?
  {
    assert "Value of type '" + "null" + "' is not callable\n" == "Value of type 'null' is not callable\n";
    assert "Value of type '" + "integer" + "' is not callable\n" == "Value of type 'integer' is not callable\n";
  }
}
