/** What it means for compiled code to do what evaluation says, and the parts of the
    proof that need no recursion: how outcomes of sub-expressions and sub-statements
    combine. */
module Outcomes {
  import opened Syntax
  import opened Values
  import opened Assembly
  import opened Codegen
  import opened Machine
  import opened Semantics
  import opened Layout
  import opened Activation

  /** A program whose pieces are where they belong. */
  ghost predicate Good(p: Program) {
    && BlockWellPlaced(p.body, false, false)
    && BlockLinked(p.body, p.funs)
    && forall i :: 0 <= i < |p.funs| ==>
         BlockWellPlaced(p.funs[i].body, true, false) && BlockLinked(p.funs[i].body, p.funs)
  }

  /** Started at `start`, the machine reaches in `n` steps what evaluating an expression
      to `r` asks for: the value on top of the operands at item `j`, or the error raised
      with `junk` left above the operands, or the end of the process.  If evaluation ran
      out of fuel the machine is still running after at least `fuel` steps. */
  ghost predicate ExprPost(c: Ctx, r: ExprResult, size: nat, start: State, ops: seq<Value>, tries: seq<nat>,
                           j: nat, fuel: nat, n: nat, junk: seq<Value>)
    requires j <= |c.items|
  {
    match r
    case Val(v, st) => Run(c.img, start, n) == c.At(st, ops + [v], tries, j) && |st.locals| == size
    case Err(err, st) => Run(c.img, start, n) == c.RaiseAt(st, ops + junk, tries, err) && |st.locals| == size
    case Stop => Run(c.img, start, n) == Stopped
    case Timeout => n >= fuel && Run(c.img, start, n).Running?
  }

  ghost predicate ArgsPost(c: Ctx, r: ArgsResult, size: nat, start: State, ops: seq<Value>, tries: seq<nat>,
                           j: nat, fuel: nat, n: nat, junk: seq<Value>)
    requires j <= |c.items|
  {
    match r
    case Vals(vs, st) => Run(c.img, start, n) == c.At(st, ops + vs, tries, j) && |st.locals| == size
    case ArgsErr(err, st) => Run(c.img, start, n) == c.RaiseAt(st, ops + junk, tries, err) && |st.locals| == size
    case ArgsStop => Run(c.img, start, n) == Stopped
    case ArgsTimeout => n >= fuel && Run(c.img, start, n).Running?
  }

  /** The same for a statement: `junk` is what caught errors left above the operands.
      `break` and `continue` arrive at their label with the try stack of the loop. */
  ghost predicate StmtPost(c: Ctx, r: StmtResult, size: nat, lp: Option<Loop>, start: State, ops: seq<Value>,
                           tries: seq<nat>, j: nat, fuel: nat, n: nat, junk: seq<Value>)
    requires j <= |c.items|
  {
    match r
    case Done(st) => Run(c.img, start, n) == c.At(st, ops + junk, tries, j) && |st.locals| == size
    case Broke(st) =>
      && lp.Some? && lp.value.tries <= |tries| && |st.locals| == size
      && Run(c.img, start, n)
         == c.AtPc(st, ops + junk, tries[..|tries| - lp.value.tries], Addr(c.items, lp.value.breakTo))
    case Continued(st) =>
      && lp.Some? && lp.value.tries <= |tries| && |st.locals| == size
      && Run(c.img, start, n)
         == c.AtPc(st, ops + junk, tries[..|tries| - lp.value.tries], Addr(c.items, lp.value.continueTo))
    case Returned(v, st) => c.fn.Some? && Run(c.img, start, n) == c.ReturnAt(st, v) && |st.locals| == size
    case Threw(err, st) => Run(c.img, start, n) == c.RaiseAt(st, ops + junk, tries, err) && |st.locals| == size
    case Ended => Run(c.img, start, n) == Stopped
    case OutOfFuel => n >= fuel && Run(c.img, start, n).Running?
  }

  lemma Assoc(a: seq<Value>, b: seq<Value>, c: seq<Value>)
    ensures a + b + c == a + (b + c)
  {
  }

  /** A failing sub-expression, started after `m` steps with `pre` more operands, makes
      the whole expression fail. */
  lemma ExprFails(c: Ctx, r: ExprResult, size: nat, start: State, mid: State, pre: seq<Value>, ops: seq<Value>,
                  tries: seq<nat>, j: nat, j1: nat, fuel: nat, m: nat, n: nat, junk: seq<Value>)
    requires j <= |c.items| && j1 <= |c.items|
    requires !r.Val? && Run(c.img, start, m) == mid
    requires ExprPost(c, r, size, mid, ops + pre, tries, j, fuel, n, junk)
    ensures ExprPost(c, r, size, start, ops, tries, j1, fuel, m + n, pre + junk)
  {
    hide Run, Step, Unwind, Pos;
    RunAdd(c.img, start, m, n);
    Assoc(ops, pre, junk);
  }

  /** Steps taken before an expression whose operands are the same. */
  lemma ExprAfter(c: Ctx, r: ExprResult, size: nat, start: State, mid: State, ops: seq<Value>,
                  tries: seq<nat>, j: nat, fuel: nat, m: nat, n: nat, junk: seq<Value>)
    requires j <= |c.items| && Run(c.img, start, m) == mid
    requires ExprPost(c, r, size, mid, ops, tries, j, fuel, n, junk)
    ensures ExprPost(c, r, size, start, ops, tries, j, fuel, m + n, junk)
  {
    hide Run, Step, Unwind, Pos;
    RunAdd(c.img, start, m, n);
  }

  /** Where the code of a failing expression ends does not matter. */
  lemma ExprFailsAnywhere(c: Ctx, r: ExprResult, size: nat, start: State, ops: seq<Value>,
                          tries: seq<nat>, j: nat, j1: nat, fuel: nat, n: nat, junk: seq<Value>)
    requires j <= |c.items| && j1 <= |c.items| && !r.Val?
    requires ExprPost(c, r, size, start, ops, tries, j, fuel, n, junk)
    ensures ExprPost(c, r, size, start, ops, tries, j1, fuel, n, junk)
  {
  }

  /** The last instruction of an operator expression. */
  lemma OpPost(c: Ctx, r: OpResult, st: Store, start: State, ops: seq<Value>, tries: seq<nat>,
               j: nat, fuel: nat, n: nat)
    requires j <= |c.items| && Run(c.img, start, n) == OpOutcome(c, r, st, ops, tries, j)
    ensures ExprPost(c, FromOp(r, st), |st.locals|, start, ops, tries, j, fuel, n, [])
  {
    assert ops + [] == ops;
  }

  /** An expression that fails as a statement, or as the first part of one. */
  lemma StmtFails(c: Ctx, r: ExprResult, size: nat, lp: Option<Loop>, start: State, ops: seq<Value>,
                  tries: seq<nat>, j: nat, j1: nat, fuel: nat, n: nat, junk: seq<Value>)
    requires j <= |c.items| && j1 <= |c.items| && !r.Val?
    requires ExprPost(c, r, size, start, ops, tries, j, fuel, n, junk)
    ensures StmtPost(c, Failed(r), size, lp, start, ops, tries, j1, fuel, n, junk)
  {
  }

  /** Steps before a statement that leave `pre` above the operands. */
  lemma StmtAfter(c: Ctx, r: StmtResult, size: nat, lp: Option<Loop>, start: State, mid: State, ops: seq<Value>,
                  pre: seq<Value>, tries: seq<nat>, j: nat, fuel: nat, m: nat, n: nat, junk: seq<Value>)
    requires j <= |c.items| && Run(c.img, start, m) == mid
    requires StmtPost(c, r, size, lp, mid, ops + pre, tries, j, fuel, n, junk)
    ensures StmtPost(c, r, size, lp, start, ops, tries, j, fuel, m + n, pre + junk)
  {
    hide Run, Step, Unwind, Pos, Addr;
    RunAdd(c.img, start, m, n);
    Assoc(ops, pre, junk);
  }

  /** The same when evaluation continued with one unit of fuel less but the machine took
      a step meanwhile. */
  lemma StmtAfterStep(c: Ctx, r: StmtResult, size: nat, lp: Option<Loop>, start: State, mid: State, ops: seq<Value>,
                      pre: seq<Value>, tries: seq<nat>, j: nat, fuel: nat, m: nat, n: nat, junk: seq<Value>)
    requires j <= |c.items| && Run(c.img, start, m) == mid && fuel > 0 && m > 0
    requires StmtPost(c, r, size, lp, mid, ops + pre, tries, j, fuel - 1, n, junk)
    ensures StmtPost(c, r, size, lp, start, ops, tries, j, fuel, m + n, pre + junk)
  {
    hide Run, Step, Unwind, Pos, Addr;
    RunAdd(c.img, start, m, n);
    Assoc(ops, pre, junk);
  }

  /** A result other than normal completion does not depend on where the code ends. */
  lemma StmtLeaves(c: Ctx, r: StmtResult, size: nat, lp: Option<Loop>, start: State, ops: seq<Value>,
                   tries: seq<nat>, j: nat, j1: nat, fuel: nat, n: nat, junk: seq<Value>)
    requires j <= |c.items| && j1 <= |c.items| && !r.Done?
    requires StmtPost(c, r, size, lp, start, ops, tries, j, fuel, n, junk)
    ensures StmtPost(c, r, size, lp, start, ops, tries, j1, fuel, n, junk)
  {
  }
}
