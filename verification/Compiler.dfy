/** The one-pass compiler: recursive procedures that read tokens and append code at the
    same time, keeping the scope chain, the enclosing loop and the try depth up to date.
    Every procedure is proved to accept exactly what the grammar accepts and to emit
    exactly the code of the tree it has read. */
module Compiler {
  import opened Syntax
  import opened Assembly
  import opened Codegen
  import opened Bytecode
  import opened Effects
  import opened Emission
  import opened Labels
  import opened Parser
  import opened Scopes

  /** Finished code: encoded words, constants, and what the run-time needs to know. */
  datatype CompiledCode = CompiledCode(words: seq<nat>, consts: seq<Constant>, name: Name, arity: nat,
                                       stackSize: int, maxTryDepth: nat)

  /** Deepest nesting of `try` bodies. */
  function StmtTries(s: Stmt): nat {
    match s
    case If(_, t, els) => Max(BlockTries(t), ElseTries(els))
    case While(_, body) => BlockTries(body)
    case For(init, _, _, body) => Max(if init.Some? then StmtTries(init.value) else 0, BlockTries(body))
    case Try(body, _, handler) => Max(1 + BlockTries(body), BlockTries(handler))
    case _ => 0
  }

  function ElseTries(els: Else): nat {
    match els
    case NoElse => 0
    case ElseIf(s) => StmtTries(s)
    case ElseBlock(body) => BlockTries(body)
  }

  function BlockTries(ss: List<Stmt>): nat {
    match ss
    case Nil => 0
    case Cons(s, rest) => Max(StmtTries(s), BlockTries(rest))
  }

  function EncodeAll(code: seq<Instr>): seq<nat> {
    seq(|code|, i requires 0 <= i < |code| => Encode(code[i]))
  }

  function Finished(items: seq<Item>, consts: seq<Constant>, name: Name, arity: nat, locals: nat, tries: nat): CompiledCode {
    var words := EncodeAll(Assemble(items));
    CompiledCode(words, consts, name, arity, LineMax(words, locals, |words|), tries)
  }

  /** What a function declaration is compiled to. */
  function CodeForFun(d: FunDecl): CompiledCode {
    Finished(GenFun(d), BlockConsts(d.body), d.name, |d.params|,
             AfterBlock(d.body, Local(d.params)).Size(), BlockTries(d.body))
  }

  function CodeForModule(body: List<Stmt>): CompiledCode {
    Finished(GenModule(body), BlockConsts(body), 0, 0, 0, BlockTries(body))
  }

  function Codes(ds: seq<FunDecl>): seq<CompiledCode> {
    seq(|ds|, i requires 0 <= i < |ds| => CodeForFun(ds[i]))
  }

  lemma CodesAdd(a: seq<FunDecl>, b: seq<FunDecl>)
    ensures Codes(a + b) == Codes(a) + Codes(b)
  {
    hide CodeForFun;
  }

  /** Labels handed out before keep their addresses. */
  ghost predicate Keeps(a: seq<int>, b: seq<int>) {
    |a| <= |b| && forall i :: 0 <= i < |a| ==> b[i] == a[i]
  }

  ghost predicate KeepsUpTo(a: seq<int>, b: seq<int>, n: nat) {
    n <= |a| <= |b| && forall i :: 0 <= i < n ==> b[i] == a[i]
  }

  lemma KeepsBoth(a: seq<int>, b: seq<int>, c: seq<int>)
    requires Keeps(a, b) && KeepsUpTo(b, c, |a|)
    ensures Keeps(a, c)
  {
  }

  lemma KeepsLess(a: seq<int>, b: seq<int>, n: nat)
    requires Keeps(a, b) && n <= |a|
    ensures KeepsUpTo(a, b, n)
  {
  }

  lemma UpToTrans(a: seq<int>, b: seq<int>, c: seq<int>, n: nat)
    requires KeepsUpTo(a, b, n) && KeepsUpTo(b, c, n)
    ensures KeepsUpTo(a, c, n) && |a| <= |b| <= |c|
  {
  }

  lemma UpToSet(a: seq<int>, l: nat, x: int, n: nat)
    requires n <= l < |a|
    ensures KeepsUpTo(a, a[l := x], n)
  {
  }

  lemma StillOpen(a: seq<int>, b: seq<int>, l: nat)
    requires Keeps(a, b) && Open(a, l)
    ensures Open(b, l)
  {
  }

  lemma KeepsTrans(a: seq<int>, b: seq<int>, c: seq<int>)
    requires Keeps(a, b) && Keeps(b, c)
    ensures Keeps(a, c)
  {
  }

  /** Everything that compiling a statement changes. */
  datatype Snap = Snap(out: Emitted, funs: seq<CompiledCode>, scope: Scope, slots: nat, maxTries: nat) {
    ghost function WithNames(xs: seq<Name>): Snap
      requires scope.Local?
    {
      this.(scope := Local(scope.names + xs), slots := Max(slots, |scope.names + xs|))
    }
  }

  ghost function PlusStmt(n: Snap, s: Stmt, tries: nat, lp: Option<Loop>): Snap {
    Snap(WithStmt(n.out, s, n.scope, lp), n.funs + Codes(StmtFuns(s)), After(s, n.scope),
         Max(n.slots, Peak(s, n.scope)), Max(n.maxTries, tries + StmtTries(s)))
  }

  ghost function PlusElse(n: Snap, els: Else, tries: nat, lp: Option<Loop>): Snap {
    Snap(WithElse(n.out, els, n.scope, lp), n.funs + Codes(ElseFuns(els)), AfterElse(els, n.scope),
         Max(n.slots, PeakElse(els, n.scope)), Max(n.maxTries, tries + ElseTries(els)))
  }

  ghost function PlusBlock(n: Snap, ss: List<Stmt>, tries: nat, lp: Option<Loop>): Snap {
    Snap(WithBlock(n.out, ss, n.scope, lp), n.funs + Codes(BlockFuns(ss)), AfterBlock(ss, n.scope),
         Max(n.slots, PeakBlock(ss, n.scope)), Max(n.maxTries, tries + BlockTries(ss)))
  }

  lemma PlusNothing(n: Snap, tries: nat, lp: Option<Loop>)
    requires n.slots >= n.scope.Size() && n.maxTries >= tries
    ensures PlusBlock(n, Nil, tries, lp) == n
  {
    NoStmtsEmit(n.out, n.scope, lp);
    assert n.funs + Codes([]) == n.funs;
  }

  lemma PlusCons(n: Snap, s: Stmt, rest: List<Stmt>, tries: nat, lp: Option<Loop>)
    ensures PlusBlock(n, Cons(s, rest), tries, lp) == PlusBlock(PlusStmt(n, s, tries, lp), rest, tries, lp)
  {
    hide WithStmt, WithBlock, Codes, Peak, StmtTries, StmtFuns, After;
    BlockStep(n.out, s, rest, n.scope, lp);
    CodesAdd(StmtFuns(s), BlockFuns(rest));
    assert n.funs + (Codes(StmtFuns(s)) + Codes(BlockFuns(rest))) == n.funs + Codes(StmtFuns(s)) + Codes(BlockFuns(rest));
  }

  ghost function PlusInit(n: Snap, init: Option<Stmt>, tries: nat, lp: Option<Loop>): Snap {
    if init.Some? then PlusStmt(n, init.value, tries, lp) else n
  }

  // ----- statements with parts, in the order in which the parts are compiled -----

  /** The two branches of an `if`, with `l` the label of the second. */
  ghost function PlusBranches(n: Snap, t: List<Stmt>, els: Else, tries: nat, lp: Option<Loop>, l: nat): Snap {
    var n1 := PlusBlock(n, t, tries, lp).(scope := n.scope);
    var n2 := n1.(out := Emit(Emit(n1.out, Ref(Jump, l + 1)), Mark(l)));
    var n3 := PlusElse(n2, els, tries, lp);
    n3.(out := Emit(n3.out, Mark(l + 1)))
  }

  lemma PlusIf(n: Snap, c: Expr, t: List<Stmt>, els: Else, tries: nat, lp: Option<Loop>)
    ensures var l := n.out.labels;
            var n1 := n.(out := Emit(WithExpr(NewLabel(NewLabel(n.out)), c, n.scope), Ref(JumpIfFalse, l)));
            PlusStmt(n, If(c, t, els), tries, lp) == PlusBranches(n1, t, els, tries, lp, l)
  {
    hide WithExpr, WithStmt, WithBlock, WithElse, Codes, PeakBlock, PeakElse, BlockTries, ElseTries, BlockFuns, ElseFuns;
    IfEmits(n.out, c, t, els, n.scope, lp);
    CodesAdd(BlockFuns(t), ElseFuns(els));
    assert n.funs + (Codes(BlockFuns(t)) + Codes(ElseFuns(els))) == n.funs + Codes(BlockFuns(t)) + Codes(ElseFuns(els));
  }

  lemma PlusNoElse(n: Snap, tries: nat, lp: Option<Loop>)
    requires n.slots >= n.scope.Size() && n.maxTries >= tries
    ensures PlusElse(n, NoElse, tries, lp) == n
  {
    NoElseEmits(n.out, n.scope, lp);
    assert n.funs + Codes([]) == n.funs;
  }

  lemma PlusElseIf(n: Snap, s: Stmt, tries: nat, lp: Option<Loop>)
    ensures PlusElse(n, ElseIf(s), tries, lp) == PlusStmt(n, s, tries, lp)
  {
    hide WithStmt, WithElse;
    ElseIfEmits(n.out, s, n.scope, lp);
  }

  lemma PlusElseBlock(n: Snap, body: List<Stmt>, tries: nat, lp: Option<Loop>)
    ensures PlusElse(n, ElseBlock(body), tries, lp) == PlusBlock(n, body, tries, lp)
  {
    hide WithBlock, WithElse;
    ElseBlockEmits(n.out, body, n.scope, lp);
  }

  /** A `while` statement from the label of its condition on. */
  ghost function PlusLooping(n: Snap, c: Expr, body: List<Stmt>, tries: nat, l: nat): Snap {
    var n1 := n.(out := Emit(WithExpr(Emit(n.out, Mark(l)), c, n.scope), Ref(JumpIfFalse, l + 1)));
    var n2 := PlusBlock(n1, body, tries, Some(Loop(l + 1, l, 0))).(scope := n.scope);
    n2.(out := Emit(Emit(n2.out, Ref(Jump, l)), Mark(l + 1)))
  }

  lemma PlusWhile(n: Snap, c: Expr, body: List<Stmt>, tries: nat, lp: Option<Loop>)
    ensures PlusStmt(n, While(c, body), tries, lp)
         == PlusLooping(n.(out := NewLabel(NewLabel(n.out))), c, body, tries, n.out.labels)
  {
    hide WithExpr, WithStmt, WithBlock, Codes, PeakBlock, BlockTries, BlockFuns;
    WhileEmits(n.out, c, body, n.scope, lp);
  }

  /** From the label of the condition to the label of the body; `l` is the first label. */
  function ForHeader(o: Emitted, c: Option<Expr>, step: Option<Expr>, sc: Scope, l: nat): Emitted {
    var o1 := Emit(WithTest(Emit(o, Mark(l)), c, sc, l + 1), Ref(Jump, l + 3));
    Emit(Emit(WithStep(Emit(o1, Mark(l + 2)), step, sc), Ref(Jump, l)), Mark(l + 3))
  }

  ghost function PlusLoop(n: Snap, c: Option<Expr>, step: Option<Expr>, body: List<Stmt>, tries: nat, l: nat): Snap {
    PlusBlock(n.(out := ForHeader(n.out, c, step, n.scope, l)), body, tries, Some(Loop(l + 1, l + 2, 0)))
  }

  /** A `for` statement from its initialiser on; `l` is the first label. */
  ghost function PlusForParts(n: Snap, init: Option<Stmt>, c: Option<Expr>, step: Option<Expr>, body: List<Stmt>,
                              tries: nat, lp: Option<Loop>, l: nat): Snap {
    var n3 := PlusLoop(PlusInit(n, init, tries, lp), c, step, body, tries, l).(scope := n.scope);
    n3.(out := Emit(Emit(n3.out, Ref(Jump, l + 2)), Mark(l + 1)))
  }

  lemma PlusFor(n: Snap, init: Option<Stmt>, c: Option<Expr>, step: Option<Expr>, body: List<Stmt>, tries: nat, lp: Option<Loop>)
    requires n.slots >= n.scope.Size() && n.maxTries >= tries
    ensures var n0 := n.(out := NewLabel(NewLabel(NewLabel(NewLabel(n.out)))));
            PlusStmt(n, For(init, c, step, body), tries, lp) == PlusForParts(n0, init, c, step, body, tries, lp, n.out.labels)
  {
    hide WithStmt, WithTest, WithStep, WithBlock, Codes, Peak, PeakBlock, StmtTries, BlockTries, StmtFuns, BlockFuns, After;
    ForEmits(n.out, init, c, step, body, n.scope, lp);
    ForRest(n, init, c, step, body);
  }

  lemma ForRest(n: Snap, init: Option<Stmt>, c: Option<Expr>, step: Option<Expr>, body: List<Stmt>)
    requires n.slots >= n.scope.Size()
    ensures var s := For(init, c, step, body);
            && n.funs + Codes(StmtFuns(s)) == (if init.Some? then n.funs + Codes(StmtFuns(init.value)) else n.funs) + Codes(BlockFuns(body))
            && After(s, n.scope) == n.scope
            && Max(n.slots, Peak(s, n.scope))
               == Max(if init.Some? then Max(n.slots, Peak(init.value, n.scope)) else n.slots, PeakBlock(body, AfterInit(init, n.scope)))
            && StmtTries(s) == Max(if init.Some? then StmtTries(init.value) else 0, BlockTries(body))
  {
    hide Codes, PeakBlock, BlockTries, BlockFuns;
    if init.Some? {
      CodesAdd(StmtFuns(init.value), BlockFuns(body));
      assert n.funs + (Codes(StmtFuns(init.value)) + Codes(BlockFuns(body)))
          == n.funs + Codes(StmtFuns(init.value)) + Codes(BlockFuns(body));
    } else {
      assert [] + BlockFuns(body) == BlockFuns(body);
    }
  }

  /** The handler of a `catch`, in its own scope. */
  ghost function PlusCatch(n: Snap, name: Option<Name>, handler: List<Stmt>, tries: nat, lp: Option<Loop>): Snap {
    var n1 := n.(out := WithCatch(n.out, name, n.scope), scope := CatchScope(name, n.scope));
    PlusBlock(n1, handler, tries, lp).(scope := n.scope)
  }

  /** The value caught is bound to a name or dropped. */
  ghost function PlusName(n: Snap, name: Option<Name>): Snap {
    var sc := CatchScope(name, n.scope);
    n.(out := WithCatch(n.out, name, n.scope), scope := sc, slots := if name.Some? then Max(n.slots, sc.Size()) else n.slots)
  }

  lemma CatchSlots(n: Snap, name: Option<Name>, handler: List<Stmt>, tries: nat, lp: Option<Loop>)
    ensures PlusBlock(PlusName(n, name), handler, tries, lp).(scope := n.scope) == PlusCatch(n, name, handler, tries, lp)
  {
    hide WithBlock, WithCatch, Codes;
  }

  function CatchEntry(o: Emitted, l: nat): Emitted {
    Emit(Emit(Emit(Emit(o, Op(PopTry, 0)), Ref(Jump, l + 1)), Mark(l)), Op(Catch, 0))
  }

  /** From the end of the `try` block on, with `l` the label of the catch clause. */
  ghost function PlusRescue(n: Snap, name: Option<Name>, handler: List<Stmt>, tries: nat, lp: Option<Loop>, l: nat): Snap {
    var n1 := PlusCatch(n.(out := CatchEntry(n.out, l)), name, handler, tries, lp);
    n1.(out := Emit(n1.out, Mark(l + 1)))
  }

  /** A `try` statement from the instruction that arms its catch clause on. */
  ghost function PlusGuarded(n: Snap, body: List<Stmt>, name: Option<Name>, handler: List<Stmt>,
                             tries: nat, lp: Option<Loop>, l: nat): Snap {
    var n1 := n.(out := Emit(n.out, Ref(PushTry, l)), maxTries := Max(n.maxTries, tries + 1));
    PlusRescue(PlusBlock(n1, body, tries + 1, Deeper(lp)).(scope := n.scope), name, handler, tries, lp, l)
  }

  lemma PlusTry(n: Snap, body: List<Stmt>, name: Option<Name>, handler: List<Stmt>, tries: nat, lp: Option<Loop>)
    ensures PlusStmt(n, Try(body, name, handler), tries, lp)
         == PlusGuarded(n.(out := NewLabel(NewLabel(n.out))), body, name, handler, tries, lp, n.out.labels)
  {
    hide WithStmt, WithBlock, WithCatch, Codes, PeakBlock, BlockTries, BlockFuns, Deeper, CatchScope;
    TryEmits(n.out, body, name, handler, n.scope, lp);
    CodesAdd(BlockFuns(body), BlockFuns(handler));
    assert n.funs + (Codes(BlockFuns(body)) + Codes(BlockFuns(handler)))
        == n.funs + Codes(BlockFuns(body)) + Codes(BlockFuns(handler));
  }

  lemma PlusExprStmt(n: Snap, e: Expr, tries: nat, lp: Option<Loop>)
    requires n.slots >= n.scope.Size() && n.maxTries >= tries
    ensures PlusStmt(n, ExprStmt(e), tries, lp) == n.(out := Emit(WithExpr(n.out, e, n.scope), Op(Pop, 0)))
  {
    hide WithExpr, WithStmt;
    ExprStmtEmits(n.out, e, n.scope, lp);
    assert n.funs + Codes([]) == n.funs;
  }

  lemma PlusThrow(n: Snap, e: Expr, tries: nat, lp: Option<Loop>)
    requires n.slots >= n.scope.Size() && n.maxTries >= tries
    ensures PlusStmt(n, Throw(e), tries, lp) == n.(out := Emit(WithExpr(n.out, e, n.scope), Op(ThrowOp, 0)))
  {
    hide WithExpr, WithStmt;
    ThrowEmits(n.out, e, n.scope, lp);
    assert n.funs + Codes([]) == n.funs;
  }

  lemma PlusReturn(n: Snap, v: Option<Expr>, tries: nat, lp: Option<Loop>)
    requires n.slots >= n.scope.Size() && n.maxTries >= tries
    ensures PlusStmt(n, Return(v), tries, lp) == n.(out := Emit(WithOpt(n.out, v, n.scope), Op(Ret, 0)))
  {
    hide WithOpt, WithStmt;
    ReturnEmits(n.out, v, n.scope, lp);
    assert n.funs + Codes([]) == n.funs;
  }

  lemma PopsStep(o: Emitted, n: nat)
    ensures WithPops(o, n) == if n == 0 then o else Emit(WithPops(o, n - 1), Op(PopTry, 0))
  {
  }

  lemma PlusLeave(n: Snap, s: Stmt, tries: nat, lp: Loop)
    requires n.slots >= n.scope.Size() && n.maxTries >= tries && s in {Break, Continue}
    ensures PlusStmt(n, s, tries, Some(lp))
         == n.(out := Emit(WithPops(n.out, lp.tries), Ref(Jump, if s.Break? then lp.breakTo else lp.continueTo)))
  {
    hide WithPops, WithStmt;
    LeaveEmits(n.out, s, n.scope, lp);
    assert n.funs + Codes([]) == n.funs;
  }

  // ----- declarations -----

  ghost function PlusDecl(n: Snap, d: Decl): Snap {
    var sc := n.scope.Declare(d.name);
    n.(out := WithDeclare(WithOpt(n.out, d.init, n.scope), d.name, n.scope), scope := sc, slots := Max(n.slots, sc.Size()))
  }

  ghost function PlusDecls(n: Snap, ds: List<Decl>): Snap {
    var sc := AfterDecls(ds, n.scope);
    n.(out := WithDecls(n.out, ds, n.scope), scope := sc, slots := Max(n.slots, sc.Size()))
  }

  lemma PlusDeclsNil(n: Snap)
    requires n.slots >= n.scope.Size()
    ensures PlusDecls(n, Nil) == n
  {
    NoDeclsEmit(n.out, n.scope);
  }

  lemma PlusDeclsCons(n: Snap, d: Decl, rest: List<Decl>)
    ensures PlusDecls(n, Cons(d, rest)) == PlusDecls(PlusDecl(n, d), rest)
  {
    hide WithDecls, WithOpt, WithDeclare;
    DeclsStep(n.out, d, rest, n.scope);
    AfterDeclsGrows(rest, n.scope.Declare(d.name));
  }

  lemma PlusLet(n: Snap, ds: List<Decl>, tries: nat, lp: Option<Loop>)
    requires n.maxTries >= tries
    ensures PlusStmt(n, Let(ds), tries, lp) == PlusDecls(n, ds)
  {
    hide WithDecls, WithStmt;
    LetEmits(n.out, ds, n.scope, lp);
    assert n.funs + Codes([]) == n.funs;
  }

  predicate LoopFits(lp: Option<Loop>, nlabels: nat) {
    lp.Some? ==> lp.value.breakTo < nlabels && lp.value.continueTo < nlabels
  }

  /** The state as seen by statements: the position, what has been produced, the labels
      with their addresses so far, the enclosing blocks, the loop and the try depth. */
  datatype View = ViewOf(pos: nat, snap: Snap, labels: seq<int>, tail: seq<Level>, lp: Option<Loop>, tries: nat) {
    ghost predicate Fits(toks: seq<Token>) {
      && pos <= |toks|
      && snap.out.labels == |labels|
      && LoopFits(lp, |labels|)
      && tries <= snap.maxTries
      && snap.scope.Size() <= snap.slots
    }

    predicate InFun() { snap.scope.Local? }

    ghost function Add(it: Item): View { this.(snap := snap.(out := Emit(snap.out, it))) }

    ghost function Labelled(): View { this.(snap := snap.(out := NewLabel(snap.out)), labels := labels + [-1]) }

    ghost function Deep(): View {
      this.(snap := snap.(maxTries := Max(snap.maxTries, tries + 1)), tries := tries + 1, lp := Deeper(lp))
    }

    ghost function Expr(r: Parsed<Syntax.Expr>, labels1: seq<int>): View
      requires r.Ok?
    {
      this.(pos := r.pos, snap := snap.(out := WithExpr(snap.out, r.tree, snap.scope)), labels := labels1)
    }

    ghost function Declare(x: Name): View {
      var sc := snap.scope.Declare(x);
      this.(snap := snap.(out := WithDeclare(snap.out, x, snap.scope), scope := sc, slots := Max(snap.slots, sc.Size())))
    }

    /** A new position and product, and the labels of `w`. */
    ghost function To(pos1: nat, n: Snap, w: View): View { ViewOf(pos1, n, w.labels, tail, lp, tries) }

    /** Nothing but the position, the product and new labels has changed. */
    ghost predicate Becomes(pos1: nat, n: Snap, w: View) {
      w == To(pos1, n, w) && Keeps(labels, w.labels)
    }
  }

  /** From `v` to `w` the statement `r` has been read and compiled; or it could not be. */
  ghost predicate DidStmt(v: View, ok: bool, r: Parsed<Stmt>, w: View) {
    && ok == (r.Ok? && WellPlaced(r.tree, v.InFun(), v.lp.Some?))
    && (ok ==> v.Becomes(r.pos, PlusStmt(v.snap, r.tree, v.tries, v.lp), w))
  }

  // ----- what each short statement has done when its procedure returns -----

  /** An expression was read at `pos` and compiled, from `v` to `w`. */
  ghost predicate DidValue(toks: seq<Token>, v: View, pos: nat, ok: bool, w: View) {
    var e := ParseExpr(toks, pos);
    ok == e.Ok? && (ok ==> w == v.Expr(e, w.labels) && Keeps(v.labels, w.labels))
  }

  lemma ThrowDid(toks: seq<Token>, v: View, ok: bool, w: View, done: bool, w1: View)
    requires Parser.Peek(toks, v.pos) == KwThrow && v.Fits(toks) && DidValue(toks, v.(pos := v.pos + 1), v.pos + 1, ok, w)
    requires ok ==> done == (Parser.Peek(toks, w.pos) == Semicolon)
    requires ok && done ==> w1 == w.Add(Op(ThrowOp, 0)).(pos := w.pos + 1)
    ensures DidStmt(v, ok && done, ParseStmt(toks, v.pos, |v.snap.funs|), w1)
  {
    hide WithExpr, PlusStmt, ParseExpr;
    if ok {
      PlusThrow(v.snap, ParseExpr(toks, v.pos + 1).tree, v.tries, v.lp);
    }
  }

  lemma LetDid(toks: seq<Token>, v: View, u: View, ok: bool, w: View)
    requires Parser.Peek(toks, v.pos) == KwLet && v.Fits(toks) && u == v.(pos := v.pos + 1)
    requires var r := ParseDecls(toks, u.pos); ok == r.Ok? && (ok ==> u.Becomes(r.pos, PlusDecls(u.snap, r.tree), w))
    ensures DidStmt(v, ok, ParseStmt(toks, v.pos, |v.snap.funs|), w)
  {
    hide PlusStmt, PlusDecls, ParseDecls;
    if ok {
      PlusLet(v.snap, ParseDecls(toks, u.pos).tree, v.tries, v.lp);
    }
  }

  lemma ReturnDid(toks: seq<Token>, v: View, ok: bool, w: View, done: bool, w1: View)
    requires Parser.Peek(toks, v.pos) == KwReturn && v.Fits(toks) && v.InFun()
    requires var v1 := v.(pos := v.pos + 1);
             if Parser.Peek(toks, v1.pos) == Semicolon then ok && w == v1.Add(Op(ConstNull, 0)) else DidValue(toks, v1, v1.pos, ok, w)
    requires ok ==> done == (Parser.Peek(toks, w.pos) == Semicolon)
    requires ok && done ==> w1 == w.(pos := w.pos + 1).Add(Op(Ret, 0))
    ensures DidStmt(v, ok && done, ParseStmt(toks, v.pos, |v.snap.funs|), w1)
  {
    hide WithExpr, PlusStmt, ParseExpr;
    if ok {
      var none := Parser.Peek(toks, v.pos + 1) == Semicolon;
      PlusReturn(v.snap, if none then None else Some(ParseExpr(toks, v.pos + 1).tree), v.tries, v.lp);
    }
  }

  lemma ReturnRefused(toks: seq<Token>, v: View, w: View)
    requires Parser.Peek(toks, v.pos) == KwReturn && !v.InFun()
    ensures DidStmt(v, false, ParseStmt(toks, v.pos, |v.snap.funs|), w)
  {
    hide ParseExpr;
  }

  /** Behind a `break` or `continue`. */
  ghost function LeftLoop(v: View, s: Stmt): View
    requires v.lp.Some?
  {
    var lp := v.lp.value;
    v.(snap := v.snap.(out := WithPops(v.snap.out, lp.tries))).Add(Ref(Jump, if s.Break? then lp.breakTo else lp.continueTo))
  }

  lemma LeaveDid(toks: seq<Token>, v: View, s: Stmt, ok: bool, w: View)
    requires s in {Break, Continue} && Parser.Peek(toks, v.pos) == (if s.Break? then KwBreak else KwContinue) && v.Fits(toks)
    requires ok == (v.lp.Some? && Parser.Peek(toks, v.pos + 1) == Semicolon)
    requires ok ==> w == LeftLoop(v.(pos := v.pos + 2), s)
    ensures DidStmt(v, ok, ParseStmt(toks, v.pos, |v.snap.funs|), w)
  {
    hide WithPops, PlusStmt;
    if ok {
      PlusLeave(v.snap, s, v.tries, v.lp.value);
    }
  }

  lemma IfDid(toks: seq<Token>, v: View, c: Parsed<Expr>, t: Parsed<List<Stmt>>, e: Parsed<Else>, ok: bool, w: View)
    requires Parser.Peek(toks, v.pos) == KwIf && c == ParseExpr(toks, v.pos + 2)
    requires var good := Parser.Peek(toks, v.pos + 1) == LeftParen && c.Ok? && Parser.Peek(toks, c.pos) == RightParen;
             && t == (if good then ParseBraces(toks, c.pos + 1, |v.snap.funs|) else Bad)
             && e == (if t.Ok? then ParseElse(toks, t.pos, |v.snap.funs| + |BlockFuns(t.tree)|) else Bad)
             && ok == (e.Ok? && BlockWellPlaced(t.tree, v.InFun(), v.lp.Some?) && ElseWellPlaced(e.tree, v.InFun(), v.lp.Some?))
    requires ok ==> var l := v.snap.out.labels;
                    var n := v.snap.(out := Emit(WithExpr(NewLabel(NewLabel(v.snap.out)), c.tree, v.snap.scope), Ref(JumpIfFalse, l)));
                    w == v.To(e.pos, PlusBranches(n, t.tree, e.tree, v.tries, v.lp, l), w) && Keeps(v.labels, w.labels)
    ensures DidStmt(v, ok, ParseIf(toks, v.pos, |v.snap.funs|), w)
  {
    hide PlusBranches, PlusStmt, ParseIf, ParseExpr, ParseBraces, ParseElse, BlockWellPlaced, ElseWellPlaced, WithExpr;
    IfReads(toks, v.pos, |v.snap.funs|);
    if ok {
      PlusIf(v.snap, c.tree, t.tree, e.tree, v.tries, v.lp);
    }
  }

  lemma WhileDid(toks: seq<Token>, v: View, c: Parsed<Expr>, body: Parsed<List<Stmt>>, ok: bool, w: View)
    requires Parser.Peek(toks, v.pos) == KwWhile && c == ParseExpr(toks, v.pos + 2)
    requires var good := Parser.Peek(toks, v.pos + 1) == LeftParen && c.Ok? && Parser.Peek(toks, c.pos) == RightParen;
             && body == (if good then ParseBraces(toks, c.pos + 1, |v.snap.funs|) else Bad)
             && ok == (body.Ok? && BlockWellPlaced(body.tree, v.InFun(), true))
    requires ok ==> var n := v.snap.(out := NewLabel(NewLabel(v.snap.out)));
                    w == v.To(body.pos, PlusLooping(n, c.tree, body.tree, v.tries, v.snap.out.labels), w) && Keeps(v.labels, w.labels)
    ensures DidStmt(v, ok, ParseWhile(toks, v.pos, |v.snap.funs|), w)
  {
    hide PlusLooping, PlusStmt, ParseWhile, ParseExpr, ParseBraces, BlockWellPlaced;
    WhileReads(toks, v.pos, |v.snap.funs|);
    if ok {
      PlusWhile(v.snap, c.tree, body.tree, v.tries, v.lp);
    }
  }

  lemma ForDid(toks: seq<Token>, v: View, init: Parsed<Option<Stmt>>, c: Parsed<Option<Expr>>, step: Parsed<Option<Expr>>,
               body: Parsed<List<Stmt>>, ok: bool, w: View)
    requires Parser.Peek(toks, v.pos) == KwFor && v.Fits(toks)
    requires && init == (if Parser.Peek(toks, v.pos + 1) == LeftParen then ParseInit(toks, v.pos + 2, |v.snap.funs|) else Bad)
             && c == (if init.Ok? then ParseOptional(toks, init.pos, Semicolon) else Bad)
             && step == (if c.Ok? then ParseOptional(toks, c.pos, RightParen) else Bad)
             && body == (if step.Ok? then ParseBraces(toks, step.pos, |v.snap.funs| + |InitFuns(init.tree)|) else Bad)
             && ok == (&& body.Ok? && (init.tree.Some? ==> WellPlaced(init.tree.value, v.InFun(), v.lp.Some?))
                       && BlockWellPlaced(body.tree, v.InFun(), true))
    requires ok ==> var n := v.snap.(out := NewLabel(NewLabel(NewLabel(NewLabel(v.snap.out)))));
                    && w == v.To(body.pos, PlusForParts(n, init.tree, c.tree, step.tree, body.tree, v.tries, v.lp, v.snap.out.labels), w)
                    && Keeps(v.labels, w.labels)
    ensures DidStmt(v, ok, ParseFor(toks, v.pos, |v.snap.funs|), w)
  {
    hide PlusForParts, PlusStmt, ParseFor, ParseInit, ParseOptional, ParseBraces, InitFuns, BlockWellPlaced;
    ForReads(toks, v.pos, |v.snap.funs|);
    if ok {
      PlusFor(v.snap, init.tree, c.tree, step.tree, body.tree, v.tries, v.lp);
    }
  }

  lemma ForRefused(toks: seq<Token>, v: View, w: View)
    requires Parser.Peek(toks, v.pos) == KwFor && v.Fits(toks) && Parser.Peek(toks, v.pos + 1) != LeftParen
    ensures DidStmt(v, false, ParseFor(toks, v.pos, |v.snap.funs|), w)
  {
    hide PlusStmt, ParseFor, ParseInit, ParseOptional, ParseBraces, InitFuns, BlockWellPlaced;
    ForReads(toks, v.pos, |v.snap.funs|);
  }

  /** The statement from its parts, which were compiled from `u` on, behind the parenthesis. */
  lemma ForPartsDid(toks: seq<Token>, v: View, u: View, init: Parsed<Option<Stmt>>, c: Parsed<Option<Expr>>, step: Parsed<Option<Expr>>,
                    body: Parsed<List<Stmt>>, ok: bool, w: View)
    requires Parser.Peek(toks, v.pos) == KwFor && v.Fits(toks) && Parser.Peek(toks, v.pos + 1) == LeftParen
    requires u == v.To(v.pos + 2, v.snap.(out := NewLabel(NewLabel(NewLabel(NewLabel(v.snap.out))))), u)
    requires |v.labels| == v.snap.out.labels && Keeps(v.labels, u.labels)
    requires && init == ParseInit(toks, u.pos, |u.snap.funs|)
             && c == (if init.Ok? then ParseOptional(toks, init.pos, Semicolon) else Bad)
             && step == (if c.Ok? then ParseOptional(toks, c.pos, RightParen) else Bad)
             && body == (if step.Ok? then ParseBraces(toks, step.pos, |u.snap.funs| + |InitFuns(init.tree)|) else Bad)
             && ok == (&& body.Ok? && (init.tree.Some? ==> WellPlaced(init.tree.value, u.InFun(), u.lp.Some?))
                       && BlockWellPlaced(body.tree, u.InFun(), true))
    requires ok ==> && w == u.To(body.pos, PlusForParts(u.snap, init.tree, c.tree, step.tree, body.tree, u.tries, u.lp, |v.labels|), w)
                    && KeepsUpTo(u.labels, w.labels, |v.labels|)
    ensures DidStmt(v, ok, ParseFor(toks, v.pos, |v.snap.funs|), w)
  {
    hide Keeps, KeepsUpTo, DidStmt, PlusForParts, ParseFor, ParseInit, ParseOptional, ParseBraces, InitFuns, BlockWellPlaced;
    if ok {
      KeepsBoth(v.labels, u.labels, w.labels);
    }
    ForDid(toks, v, init, c, step, body, ok, w);
  }

  lemma TryDid(toks: seq<Token>, v: View, body: Parsed<List<Stmt>>, name: Parsed<Option<Name>>, handler: Parsed<List<Stmt>>, ok: bool, w: View)
    requires Parser.Peek(toks, v.pos) == KwTry && body == ParseBraces(toks, v.pos + 1, |v.snap.funs|)
    requires && name == (if body.Ok? && Parser.Peek(toks, body.pos) == KwCatch then ParseCatchName(toks, body.pos + 1) else Bad)
             && handler == (if name.Ok? then ParseBraces(toks, name.pos, |v.snap.funs| + |BlockFuns(body.tree)|) else Bad)
             && ok == (handler.Ok? && BlockWellPlaced(body.tree, v.InFun(), v.lp.Some?) && BlockWellPlaced(handler.tree, v.InFun(), v.lp.Some?))
    requires ok ==> var n := v.snap.(out := NewLabel(NewLabel(v.snap.out)));
                    && w == v.To(handler.pos, PlusGuarded(n, body.tree, name.tree, handler.tree, v.tries, v.lp, v.snap.out.labels), w)
                    && Keeps(v.labels, w.labels)
    ensures DidStmt(v, ok, ParseTry(toks, v.pos, |v.snap.funs|), w)
  {
    hide PlusGuarded, PlusStmt, ParseTry, ParseBraces, ParseCatchName, BlockWellPlaced;
    TryReads(toks, v.pos, |v.snap.funs|);
    if ok {
      PlusTry(v.snap, body.tree, name.tree, handler.tree, v.tries, v.lp);
    }
  }

  lemma InitKind(n: Snap, init: Option<Stmt>, tries: nat, lp: Option<Loop>)
    ensures PlusInit(n, init, tries, lp).scope.Local? == n.scope.Local?
  {
    hide PlusStmt;
    if init.Some? {
      ScopeKind(n, init.value, tries, lp);
    }
  }

  /** Where a block is being compiled: from `v0` the statements up to `w` have been, and
      what the rest of the tokens makes of the block `r0` is what it makes from `w` on. */
  ghost predicate Underway(toks: seq<Token>, end: Token, v0: View, r0: Parsed<List<Stmt>>, w: View) {
    var r := ParseBlock(toks, w.pos, |w.snap.funs|, end);
    && v0.Becomes(w.pos, w.snap, w) && w.InFun() == v0.InFun() && w.pos >= v0.pos
    && r.Ok? == r0.Ok?
    && (r.Ok? ==>
          && r.pos == r0.pos
          && BlockWellPlaced(r.tree, v0.InFun(), v0.lp.Some?) == BlockWellPlaced(r0.tree, v0.InFun(), v0.lp.Some?)
          && PlusBlock(w.snap, r.tree, v0.tries, v0.lp) == PlusBlock(v0.snap, r0.tree, v0.tries, v0.lp))
  }

  lemma BlockBegins(toks: seq<Token>, end: Token, v: View)
    ensures Underway(toks, end, v, ParseBlock(toks, v.pos, |v.snap.funs|, end), v)
  {
    hide ParseBlock, BlockWellPlaced, PlusBlock;
  }

  lemma BlockGoesOn(toks: seq<Token>, end: Token, v0: View, r0: Parsed<List<Stmt>>, v: View, ok: bool, w: View)
    requires Underway(toks, end, v0, r0, v) && Parser.Peek(toks, v.pos) != end
    requires DidStmt(v, ok, ParseStmt(toks, v.pos, |v.snap.funs|), w)
    ensures ok ==> Underway(toks, end, v0, r0, w) && w.pos > v.pos
    ensures !ok ==> !(r0.Ok? && BlockWellPlaced(r0.tree, v0.InFun(), v0.lp.Some?))
  {
    hide ParseBlock, BlockWellPlaced, PlusBlock, PlusStmt, ParseStmt, WellPlaced;
    var s := ParseStmt(toks, v.pos, |v.snap.funs|);
    BlockReads(toks, v.pos, |v.snap.funs|, end);
    if s.Ok? {
      FunsGrow(v.snap, s.tree, v.tries, v.lp);
      ScopeKind(v.snap, s.tree, v.tries, v.lp);
      var rest := ParseBlock(toks, s.pos, |v.snap.funs| + |StmtFuns(s.tree)|, end);
      if rest.Ok? {
        BlockPlaced(s.tree, rest.tree, v.InFun(), v.lp.Some?);
        PlusCons(v.snap, s.tree, rest.tree, v.tries, v.lp);
      }
    }
  }

  lemma BlockEnds(toks: seq<Token>, end: Token, v0: View, r0: Parsed<List<Stmt>>, w: View)
    requires Underway(toks, end, v0, r0, w) && Parser.Peek(toks, w.pos) == end && w.Fits(toks)
    ensures r0.Ok? && BlockWellPlaced(r0.tree, v0.InFun(), v0.lp.Some?)
    ensures r0.pos == (if end == Eof then w.pos else w.pos + 1)
    ensures v0.Becomes(w.pos, PlusBlock(v0.snap, r0.tree, v0.tries, v0.lp), w)
  {
    hide ParseBlock, BlockWellPlaced, PlusBlock;
    BlockReads(toks, w.pos, |w.snap.funs|, end);
    NonePlaced(v0.InFun(), v0.lp.Some?);
    PlusNothing(w.snap, v0.tries, v0.lp);
  }

  lemma ScopeKind(n: Snap, s: Stmt, tries: nat, lp: Option<Loop>)
    ensures PlusStmt(n, s, tries, lp).scope.Local? == n.scope.Local?
  {
    hide WithStmt, Codes;
    AfterKind(s, n.scope);
  }

  lemma {:induction false} AfterKind(s: Stmt, sc: Scope)
    ensures After(s, sc).Local? == sc.Local?
    decreases s, 0
  {
    match s
    case Let(ds) => DeclsKind(ds, sc);
    case If(_, _, els) => ElseKind(els, sc);
    case _ =>
  }

  lemma {:induction false} DeclsKind(ds: List<Decl>, sc: Scope)
    ensures AfterDecls(ds, sc).Local? == sc.Local?
  {
    match ds
    case Nil =>
    case Cons(d, rest) => DeclsKind(rest, sc.Declare(d.name));
  }

  lemma {:induction false} ElseKind(els: Else, sc: Scope)
    ensures AfterElse(els, sc).Local? == sc.Local?
    decreases els, 0
  {
    match els
    case NoElse =>
    case ElseIf(s) => AfterKind(s, sc);
    case ElseBlock(body) => BlockKind(body, sc);
  }

  lemma {:induction false} BlockKind(ss: List<Stmt>, sc: Scope)
    ensures AfterBlock(ss, sc).Local? == sc.Local?
    decreases ss, 0
  {
    match ss
    case Nil =>
    case Cons(s, rest) =>
      AfterKind(s, sc);
      BlockKind(rest, After(s, sc));
  }

  class ParseState {
    const toks: seq<Token>
    var pos: nat

    constructor (toks: seq<Token>)
      ensures this.toks == toks && pos == 0
    {
      this.toks, pos := toks, 0;
    }

    function Peek(): Token
      reads this
    {
      Parser.Peek(toks, pos)
    }

    method Next()
      modifies this
      ensures pos == old(pos) + 1
    {
      pos := pos + 1;
    }

    method Expect(t: Token) returns (ok: bool)
      modifies this
      ensures ok == Parser.Expect(toks, old(pos), t).Ok?
      ensures pos == if ok then old(pos) + 1 else old(pos)
    {
      ok := pos < |toks| && toks[pos] == t;
      if ok {
        pos := pos + 1;
      }
    }
  }

  /** The functions compiled so far. */
  class Unit {
    var funs: seq<CompiledCode>

    constructor ()
      ensures funs == []
    {
      funs := [];
    }
  }

  class CState {
    const parse: ParseState
    const unit: Unit
    const bytecode: Buffer
    /** Absent at module level. */
    const fstate: FunctionState?
    var consts: seq<Constant>
    var loop: Option<Loop>
    var tryDepth: nat
    var maxTryDepth: nat

    ghost predicate Valid()
      reads this, parse, bytecode, fstate
    {
      && bytecode.Valid()
      && parse.pos <= |parse.toks|
      && (loop.Some? ==> loop.value.breakTo < |bytecode.labels| && loop.value.continueTo < |bytecode.labels|)
      && tryDepth <= maxTryDepth
      && (fstate != null ==> fstate.Valid())
    }

    ghost function Out(): Emitted
      reads this, bytecode
    {
      Emitted(bytecode.items, |bytecode.labels|, consts)
    }

    ghost function Scope(): Syntax.Scope
      reads fstate
    {
      if fstate == null then Global else Local(fstate.Names())
    }

    /** The enclosing blocks of the innermost one. */
    ghost function Tail(): seq<Level>
      reads fstate
    {
      if fstate == null || fstate.levels == [] then [] else fstate.levels[1..]
    }

    ghost function Snapshot(): Snap
      reads this, bytecode, fstate, unit
    {
      Snap(Out(), unit.funs, Scope(), if fstate == null then 0 else fstate.numLocals, maxTryDepth)
    }

    /** The state of a module. */
    constructor Root(toks: seq<Token>)
      ensures Valid() && fresh(parse) && fresh(bytecode) && fresh(unit) && fstate == null
      ensures parse.toks == toks && parse.pos == 0 && loop == None && tryDepth == 0
      ensures Snapshot() == Snap(Emitted([], 0, []), [], Global, 0, 0)
    {
      parse := new ParseState(toks);
      unit := new Unit();
      bytecode := new Buffer();
      fstate := null;
      consts, loop, tryDepth, maxTryDepth := [], None, 0, 0;
    }

    /** The state of a function inside: the same tokens, everything else anew. */
    constructor Inherit(outer: CState)
      requires outer.parse.pos <= |outer.parse.toks|
      ensures Valid() && parse == outer.parse && unit == outer.unit
      ensures fresh(bytecode) && fstate != null && fresh(fstate) && |fstate.levels| == 1
      ensures loop == None && tryDepth == 0
      ensures Snapshot() == Snap(Emitted([], 0, []), unit.funs, Local([]), 0, 0)
    {
      parse, unit := outer.parse, outer.unit;
      bytecode := new Buffer();
      fstate := new FunctionState();
      consts, loop, tryDepth, maxTryDepth := [], None, 0, 0;
    }

    /** After an expression. */
    ghost predicate Reached(pos: nat, o: Emitted, labels: seq<int>)
      reads this, parse, bytecode, fstate
    {
      Valid() && parse.pos == pos && Out() == o && Keeps(labels, bytecode.labels)
    }

    twostate predicate DidExpr(ok: bool, r: Parsed<Expr>)
      reads this, parse, bytecode, fstate
    {
      && ok == r.Ok?
      && (ok ==> Reached(r.pos, WithExpr(old(Out()), r.tree, Scope()), old(bytecode.labels)))
    }

    // ----- appending -----

    method Append(op: Opcode, arg: nat)
      requires Valid()
      modifies bytecode
      ensures Valid() && Out() == Emit(old(Out()), Op(op, arg)) && bytecode.labels == old(bytecode.labels)
    {
      bytecode.Append(op, arg);
    }

    method AppendRef(op: Opcode, l: nat)
      requires Valid() && l < |bytecode.labels|
      modifies bytecode
      ensures Valid() && Out() == Emit(old(Out()), Ref(op, l)) && bytecode.labels == old(bytecode.labels)
    {
      bytecode.AppendRef(op, l);
    }

    method Label() returns (l: nat)
      requires Valid()
      modifies bytecode
      ensures Valid() && l == old(Out()).labels && Out() == Emission.NewLabel(old(Out()))
      ensures Open(bytecode.labels, l) && Keeps(old(bytecode.labels), bytecode.labels)
    {
      l := bytecode.Label();
    }

    method MarkHere(l: nat)
      requires Valid() && Open(bytecode.labels, l)
      modifies bytecode
      ensures Valid() && Out() == Emit(old(Out()), Mark(l))
      ensures forall i :: 0 <= i < |bytecode.labels| && i != l ==> bytecode.labels[i] == old(bytecode.labels)[i]
    {
      bytecode.MarkLabel(l);
    }

    // ----- expressions -----

    /** A load or store of a name: the slot of its innermost binding, or the global. */
    method LoadName(x: Name)
      requires Valid()
      modifies bytecode
      ensures Valid() && Out() == Emit(old(Out()), Load(x, Scope())) && bytecode.labels == old(bytecode.labels)
    {
      var slot := Resolve(x);
      if slot.Some? {
        Append(LoadLocal, slot.value);
      } else {
        Append(LoadGlobal, x);
      }
    }

    method StoreName(x: Name)
      requires Valid()
      modifies bytecode
      ensures Valid() && Out() == Emit(old(Out()), Store(x, Scope())) && bytecode.labels == old(bytecode.labels)
    {
      var slot := Resolve(x);
      if slot.Some? {
        Append(StoreLocal, slot.value);
      } else {
        Append(StoreGlobal, x);
      }
    }

    method Resolve(x: Name) returns (slot: Option<nat>)
      requires Valid()
      ensures slot == Scope().Resolve(x)
    {
      if fstate == null {
        slot := None;
      } else {
        slot := fstate.GetBinding(x);
      }
    }

    method CompileExpression() returns (ok: bool)
      requires Valid()
      modifies parse, bytecode, this`consts
      ensures DidExpr(ok, ParseExpr(parse.toks, old(parse.pos)))
      decreases |parse.toks| - parse.pos, 4
    {
      ok := CompileInner(0);
    }

    method CompileInner(rbp: nat) returns (ok: bool)
      requires Valid()
      modifies parse, bytecode, this`consts
      ensures DidExpr(ok, ParseInner(parse.toks, old(parse.pos), rbp))
      decreases |parse.toks| - parse.pos, 3
    {
      hide Buffer.Valid, FunctionState.Valid, WithExpr, ParseNud, ParseLed;
      ghost var r0 := ParseInner(parse.toks, parse.pos, rbp);
      ghost var o0 := Out();
      ghost var nud := ParseNud(parse.toks, parse.pos);
      ok := Nud();
      if !ok {
        return;
      }
      ghost var left := nud.tree;
      while rbp < Lbp(parse.Peek())
        invariant ok && Valid() && parse.pos <= |parse.toks| && parse.pos > old(parse.pos)
        invariant r0 == ParseLoop(parse.toks, parse.pos, rbp, left)
        invariant Out() == WithExpr(o0, left, Scope()) && Keeps(old(bytecode.labels), bytecode.labels)
        decreases |parse.toks| - parse.pos
      {
        ghost var led := ParseLed(parse.toks, parse.pos, left);
        ok := Led(left, o0);
        if !ok {
          return;
        }
        left := led.tree;
      }
    }

    method Nud() returns (ok: bool)
      requires Valid()
      modifies parse, bytecode, this`consts
      ensures DidExpr(ok, ParseNud(parse.toks, old(parse.pos)))
      decreases |parse.toks| - parse.pos, 1
    {
      hide Buffer.Valid, FunctionState.Valid, WithExpr, ParseExpr, ParseInner, ParseIdent;
      var t := parse.Peek();
      if t.Ident? {
        ok := IdentifierExpression(t.x);
      } else if LiteralOf(t).Some? {
        var lit := LiteralOf(t).value;
        LiteralEmits(Out(), lit, Scope());
        parse.Next();
        if lit.IntLit? {
          consts := consts + [IntConst(lit.n)];
        }
        Literal(lit, if lit.IntLit? then |consts| - 1 else |consts|);
        ok := true;
      } else if t == LeftParen {
        parse.Next();
        ok := CompileExpression();
        if ok {
          ok := parse.Expect(RightParen);
        }
      } else if UnaryOf(t).Some? {
        ok := UnaryExpression(UnaryOf(t).value);
      } else {
        ok := false;
      }
    }

    method UnaryExpression(op: UnOp) returns (ok: bool)
      requires Valid() && UnaryOf(parse.Peek()) == Some(op)
      modifies parse, bytecode, this`consts
      ensures DidExpr(ok, ParseNud(parse.toks, old(parse.pos)))
      decreases |parse.toks| - parse.pos, 0
    {
      hide Buffer.Valid, FunctionState.Valid, WithExpr, ParseExpr, ParseInner, ParseIdent;
      ghost var o0, r := Out(), ParseInner(parse.toks, parse.pos + 1, UNARY_POWER);
      parse.Next();
      ok := CompileInner(UNARY_POWER);
      if ok {
        Append(Un(op), 0);
        UnaryEmits(o0, op, r.tree, Scope());
      }
    }

    method Literal(lit: Syntax.Literal, k: nat)
      requires Valid()
      modifies bytecode
      ensures Valid() && Out() == Emit(old(Out()), GenLiteral(lit, k)) && bytecode.labels == old(bytecode.labels)
    {
      match lit
      case IntLit(_) => Append(LoadConst, k);
      case StrLit(id) => Append(ConstString, id);
      case TrueLit => Append(ConstTrue, 0);
      case FalseLit => Append(ConstFalse, 0);
      case NullLit => Append(ConstNull, 0);
    }

    method IdentifierExpression(x: Name) returns (ok: bool)
      requires Valid() && parse.Peek() == Ident(x)
      modifies parse, bytecode, this`consts
      ensures DidExpr(ok, ParseIdent(parse.toks, old(parse.pos), x))
      decreases |parse.toks| - parse.pos, 0
    {
      hide Buffer.Valid, FunctionState.Valid, WithExpr, ParseExpr, Load, Store;
      ghost var o0 := Out();
      parse.Next();
      var t := parse.Peek();
      ok := true;
      if CompoundOp(t).Some? {
        parse.Next();
        ok := CompoundAssignment(x, CompoundOp(t).value);
      } else if t == Equal {
        parse.Next();
        ok := Assignment(x);
      } else if t == PlusPlus || t == MinusMinus {
        parse.Next();
        BumpName(x, t == PlusPlus);
      } else {
        LoadName(x);
        VarEmits(o0, x, Scope());
      }
    }

    method CompoundAssignment(x: Name, op: BinOp) returns (ok: bool)
      requires Valid()
      modifies parse, bytecode, this`consts
      ensures var r := ParseExpr(parse.toks, old(parse.pos));
              DidExpr(ok, if r.Ok? then Ok(OpAssign(x, op, r.tree), r.pos) else Bad)
      decreases |parse.toks| - parse.pos, 5
    {
      hide Buffer.Valid, FunctionState.Valid, WithExpr, ParseExpr, Load, Store;
      ghost var o0, r := Out(), ParseExpr(parse.toks, parse.pos);
      LoadName(x);
      ok := CompileExpression();
      if ok {
        Append(Bin(op), 0);
        StoreName(x);
        OpAssignEmits(o0, x, op, r.tree, Scope());
      }
    }

    method Assignment(x: Name) returns (ok: bool)
      requires Valid()
      modifies parse, bytecode, this`consts
      ensures var r := ParseExpr(parse.toks, old(parse.pos));
              DidExpr(ok, if r.Ok? then Ok(Assign(x, r.tree), r.pos) else Bad)
      decreases |parse.toks| - parse.pos, 5
    {
      hide Buffer.Valid, FunctionState.Valid, WithExpr, ParseExpr, Store;
      ghost var o0, r := Out(), ParseExpr(parse.toks, parse.pos);
      ok := CompileExpression();
      if ok {
        StoreName(x);
        AssignEmits(o0, x, r.tree, Scope());
      }
    }

    method BumpName(x: Name, up: bool)
      requires Valid()
      modifies bytecode
      ensures Valid() && Out() == WithExpr(old(Out()), Bump(x, up), Scope()) && bytecode.labels == old(bytecode.labels)
    {
      hide Buffer.Valid, FunctionState.Valid, WithExpr, Load, Store;
      ghost var o0 := Out();
      LoadName(x);
      Append(Dup, 0);
      Append(if up then Inc else Dec, 0);
      StoreName(x);
      Append(Pop, 0);
      BumpEmits(o0, x, up, Scope());
    }

    /** The code of the left operand, which starts after `o0`, has been emitted. */
    twostate predicate DidLed(ok: bool, r: Parsed<Expr>, o0: Emitted)
      reads this, parse, bytecode, fstate
    {
      && ok == r.Ok?
      && (ok ==> Reached(r.pos, WithExpr(o0, r.tree, Scope()), old(bytecode.labels)))
    }

    method Led(ghost left: Expr, ghost o0: Emitted) returns (ok: bool)
      requires Valid() && Out() == WithExpr(o0, left, Scope())
      modifies parse, bytecode, this`consts
      ensures DidLed(ok, ParseLed(parse.toks, old(parse.pos), left), o0)
      decreases |parse.toks| - parse.pos, 1
    {
      hide Buffer.Valid, FunctionState.Valid, WithExpr, ParseInner, ParseArgs;
      var t := parse.Peek();
      if t.BinTok? {
        ok := BinaryExpression(t.op, left, o0);
      } else if t == AndAnd || t == OrOr {
        ok := ShortCircuit(t == AndAnd, left, o0);
      } else if t == LeftParen {
        ok := CallExpression(left, o0);
      } else {
        ok := false;
      }
    }

    method BinaryExpression(op: BinOp, ghost left: Expr, ghost o0: Emitted) returns (ok: bool)
      requires Valid() && Out() == WithExpr(o0, left, Scope()) && parse.Peek() == BinTok(op)
      modifies parse, bytecode, this`consts
      ensures DidLed(ok, ParseLed(parse.toks, old(parse.pos), left), o0)
      decreases |parse.toks| - parse.pos, 0
    {
      hide Buffer.Valid, FunctionState.Valid, WithExpr, ParseInner;
      ghost var r := ParseInner(parse.toks, parse.pos + 1, RightPower(op));
      parse.Next();
      ok := CompileInner(RightPower(op));
      if ok {
        Append(Bin(op), 0);
        BinaryEmits(o0, op, left, r.tree, Scope());
      }
    }

    method ShortCircuit(isAnd: bool, ghost left: Expr, ghost o0: Emitted) returns (ok: bool)
      requires Valid() && Out() == WithExpr(o0, left, Scope()) && parse.Peek() == if isAnd then AndAnd else OrOr
      modifies parse, bytecode, this`consts
      ensures DidLed(ok, ParseLed(parse.toks, old(parse.pos), left), o0)
      decreases |parse.toks| - parse.pos, 0
    {
      hide Buffer.Valid, FunctionState.Valid, WithExpr, ParseInner;
      ghost var r := ParseInner(parse.toks, parse.pos + 1, LogicPower(isAnd));
      parse.Next();
      var end := SkipRight(isAnd);
      ok := CompileInner(LogicPower(isAnd));
      if ok {
        MarkHere(end);
        LogicEmits(o0, isAnd, left, r.tree, Scope());
      }
    }

    /** The jump over the right operand, and the pop of the left one. */
    method SkipRight(isAnd: bool) returns (end: nat)
      requires Valid()
      modifies bytecode
      ensures Valid() && end == old(Out()).labels && Out() == LogicSkip(old(Out()), isAnd)
      ensures Open(bytecode.labels, end) && Keeps(old(bytecode.labels), bytecode.labels)
    {
      hide Buffer.Valid, FunctionState.Valid;
      end := Label();
      Append(Dup, 0);
      AppendRef(if isAnd then JumpIfFalse else JumpIfTrue, end);
      Append(Pop, 0);
    }

    method CallExpression(ghost left: Expr, ghost o0: Emitted) returns (ok: bool)
      requires Valid() && Out() == WithExpr(o0, left, Scope()) && parse.Peek() == LeftParen
      modifies parse, bytecode, this`consts
      ensures DidLed(ok, ParseLed(parse.toks, old(parse.pos), left), o0)
      decreases |parse.toks| - parse.pos, 0
    {
      hide Buffer.Valid, FunctionState.Valid, WithExpr, WithArgs, ParseArgs;
      parse.Next();
      ghost var r := ParseArgs(parse.toks, parse.pos, true);
      var numArgs;
      ok, numArgs := Arguments();
      if ok {
        Append(CallFn, numArgs);
        CallEmits(o0, left, r.tree, Scope());
      }
    }

    /** Arguments up to the closing parenthesis. */
    method Arguments() returns (ok: bool, numArgs: nat)
      requires Valid()
      modifies parse, bytecode, this`consts
      ensures var r := ParseArgs(parse.toks, old(parse.pos), true);
              && ok == r.Ok?
              && (ok ==> numArgs == Length(r.tree) && Reached(r.pos, WithArgs(old(Out()), r.tree, Scope()), old(bytecode.labels)))
      decreases |parse.toks| - parse.pos, 5
    {
      hide Valid, Out, Scope, Buffer.Valid, FunctionState.Valid, WithExpr, WithArgs, ParseExpr, ParseArgs;
      PosFits();
      ghost var r0 := ParseArgs(parse.toks, parse.pos, true);
      ghost var o1 := Out();
      ghost var r := r0;
      var first := true;
      numArgs := 0;
      while parse.Peek() != RightParen
        invariant Valid() && old(parse.pos) <= parse.pos <= |parse.toks| && Keeps(old(bytecode.labels), bytecode.labels)
        invariant r == ParseArgs(parse.toks, parse.pos, first) && r.Ok? == r0.Ok?
        invariant r.Ok? ==>
                    && r.pos == r0.pos
                    && WithArgs(Out(), r.tree, Scope()) == WithArgs(o1, r0.tree, Scope())
                    && numArgs + Length(r.tree) == Length(r0.tree)
        decreases |parse.toks| - parse.pos
      {
        ArgsRead(parse.toks, parse.pos, first);
        var last;
        ok, last := Separator(first);
        if !ok {
          return;
        }
        first := false;
        if last {
          break;
        }
        numArgs := numArgs + 1;
        ghost var o2, e := Out(), ParseExpr(parse.toks, parse.pos);
        ok := CompileExpression();
        if !ok {
          return;
        }
        PosFits();
        r := ParseArgs(parse.toks, parse.pos, false);
        if r.Ok? {
          ArgsStep(o2, e.tree, r.tree, Scope());
        }
      }
      ArgsRead(parse.toks, parse.pos, first);
      NoArgsEmit(Out(), Scope());
      ok := Closing();
    }

    lemma PosFits()
      requires Valid()
      ensures parse.pos <= |parse.toks|
    {
    }

    /** The comma before every element of a list but the first; a comma may end the list. */
    method Separator(first: bool) returns (ok: bool, last: bool)
      requires Valid() && parse.Peek() != RightParen
      modifies parse
      ensures Valid()
      ensures first ==> ok && !last && parse.pos == old(parse.pos)
      ensures !first ==> ok == (old(parse.Peek()) == Comma)
      ensures !first && ok ==> parse.pos == old(parse.pos) + 1 && last == (parse.Peek() == RightParen)
    {
      hide Buffer.Valid, FunctionState.Valid;
      ok, last := true, false;
      if !first {
        ok := parse.Expect(Comma);
        last := ok && parse.Peek() == RightParen;
      }
    }

    method Closing() returns (ok: bool)
      requires Valid()
      modifies parse
      ensures Valid() && ok == (old(parse.Peek()) == RightParen)
      ensures ok ==> parse.pos == old(parse.pos) + 1 <= |parse.toks|
    {
      hide Buffer.Valid, FunctionState.Valid;
      ok := parse.Expect(RightParen);
    }

    // ----- one view of everything that statements read and change -----

    ghost function View(): (v: View)
      reads this, parse, bytecode, fstate, unit
      ensures Valid() ==> v.Fits(parse.toks)
    {
      ViewOf(parse.pos, Snapshot(), bytecode.labels, Tail(), loop, tryDepth)
    }

    function Peek(): Token
      reads parse
    {
      parse.Peek()
    }

    method Next()
      requires Valid() && Peek() != Eof
      modifies parse
      ensures Valid() && View() == old(View()).(pos := old(View()).pos + 1)
    {
      hide Buffer.Valid, FunctionState.Valid;
      parse.Next();
    }

    method Expect(t: Token) returns (ok: bool)
      requires Valid() && t != Eof
      modifies parse
      ensures Valid() && ok == (Parser.Peek(parse.toks, old(View()).pos) == t)
      ensures View() == if ok then old(View()).(pos := old(View()).pos + 1) else old(View())
    {
      hide Buffer.Valid, FunctionState.Valid;
      ok := parse.Expect(t);
    }

    method Push(op: Opcode, arg: nat)
      requires Valid()
      modifies bytecode
      ensures Valid() && View() == old(View()).Add(Op(op, arg))
    {
      hide Buffer.Valid, FunctionState.Valid;
      Append(op, arg);
    }

    method PushRef(op: Opcode, l: nat)
      requires Valid() && l < |View().labels|
      modifies bytecode
      ensures Valid() && View() == old(View()).Add(Ref(op, l))
    {
      hide Buffer.Valid, FunctionState.Valid;
      AppendRef(op, l);
    }

    method NewLabel() returns (l: nat)
      requires Valid()
      modifies bytecode
      ensures Valid() && l == |old(View()).labels| && View() == old(View()).Labelled()
    {
      hide Buffer.Valid, FunctionState.Valid;
      l := bytecode.Label();
    }

    method MarkLabel(l: nat)
      requires Valid() && Open(View().labels, l)
      modifies bytecode
      ensures Valid() && l < |View().labels|
      ensures var v := old(View()).Add(Mark(l)); View() == v.(labels := v.labels[l := View().labels[l]])
    {
      hide Buffer.Valid, FunctionState.Valid;
      bytecode.MarkLabel(l);
    }

    method SetLoop(lp: Option<Loop>)
      requires Valid() && LoopFits(lp, |View().labels|)
      modifies this`loop
      ensures Valid() && View() == old(View()).(lp := lp)
    {
      hide Buffer.Valid, FunctionState.Valid;
      loop := lp;
    }

    method EnterTry()
      requires Valid()
      modifies this`tryDepth, this`maxTryDepth, this`loop
      ensures Valid() && View() == old(View()).Deep()
    {
      hide Buffer.Valid, FunctionState.Valid;
      tryDepth := tryDepth + 1;
      if tryDepth > maxTryDepth {
        maxTryDepth := tryDepth;
      }
      if loop.Some? {
        loop := Some(loop.value.(tries := loop.value.tries + 1));
      }
    }

    method LeaveTry(ghost outer: Option<Loop>)
      requires Valid() && View().tries > 0 && View().lp == Deeper(outer)
      modifies this`tryDepth, this`loop
      ensures Valid() && View() == old(View()).(tries := old(View()).tries - 1, lp := outer)
    {
      hide Buffer.Valid, FunctionState.Valid;
      tryDepth := tryDepth - 1;
      if loop.Some? {
        loop := Some(loop.value.(tries := loop.value.tries - 1));
      }
    }

    method PushScope()
      requires Valid()
      modifies fstate
      ensures Valid()
      ensures var v := old(View()); View() == v.(tail := if fstate == null then [] else View().tail)
      ensures fstate != null ==> View().tail != [] && View().tail == old(fstate.levels) && Local(Visible(View().tail)) == View().snap.scope
    {
      hide Buffer.Valid;
      if fstate != null {
        fstate.PushScope();
      }
    }

    /** `v` is the view before the scope was pushed. */
    method PopScope(ghost v: View)
      requires Valid() && v.snap.scope.Local? == (fstate != null)
      requires fstate != null ==> View().tail != [] && Local(Visible(View().tail)) == v.snap.scope && View().tail[1..] == v.tail
      requires fstate == null ==> v.tail == []
      modifies fstate
      ensures Valid() && View() == old(View()).(snap := old(View()).snap.(scope := v.snap.scope), tail := v.tail)
    {
      hide Buffer.Valid;
      if fstate != null {
        fstate.PopScope();
      }
    }

    method Expression() returns (ok: bool)
      requires Valid()
      modifies parse, bytecode, this`consts
      ensures ok == ParseExpr(parse.toks, old(View()).pos).Ok?
      ensures ok ==> && Valid()
                     && var v, r := old(View()), ParseExpr(parse.toks, old(View()).pos);
                        View() == v.Expr(r, View().labels) && Keeps(v.labels, View().labels)
      decreases |parse.toks| - parse.pos, 4
    {
      hide Buffer.Valid, FunctionState.Valid, WithExpr, ParseExpr;
      ok := CompileExpression();
    }

    /** Binds the value on top of the stack to a new variable and drops it. */
    method DeclareName(x: Name)
      requires Valid()
      modifies bytecode, fstate
      ensures Valid() && View() == old(View()).Declare(x)
    {
      hide Buffer.Valid, WithDeclare;
      DeclareEmits(Out(), x, Scope());
      if fstate == null {
        Append(DeclareGlobal, x);
        Append(StoreGlobal, x);
      } else {
        var slot := fstate.AddBinding(x);
        Append(StoreLocal, slot);
      }
      Append(Pop, 0);
    }

    // ----- statements -----

    /** Statements up to the token `end`, which is left to the caller. */
    method CompileUntil(end: Token) returns (ok: bool)
      requires Valid()
      modifies this, parse, bytecode, fstate, unit
      ensures var v := old(View());
              var r := ParseBlock(parse.toks, v.pos, |v.snap.funs|, end);
              && ok == (r.Ok? && BlockWellPlaced(r.tree, v.InFun(), v.lp.Some?))
              && (ok ==> && Valid() && Peek() == end
                         && r.pos == (if end == Eof then View().pos else View().pos + 1)
                         && v.Becomes(View().pos, PlusBlock(v.snap, r.tree, v.tries, v.lp), View()))
      decreases |parse.toks| - parse.pos, 3
    {
      hide ParseBlock, BlockWellPlaced, Valid, Buffer.Valid, FunctionState.Valid, View, PlusBlock, ParseStmt, Underway, DidStmt;
      ghost var v0 := View();
      ghost var r0 := ParseBlock(parse.toks, v0.pos, |v0.snap.funs|, end);
      PosIs();
      BlockBegins(parse.toks, end, v0);
      while Peek() != end
        invariant Valid() && Underway(parse.toks, end, v0, r0, View()) && View().pos == parse.pos && parse.pos >= v0.pos
        decreases |parse.toks| - parse.pos
      {
        ghost var v := View();
        PosIs();
        ok := CompileStatement();
        BlockGoesOn(parse.toks, end, v0, r0, v, ok, View());
        if !ok {
          return;
        }
        PosIs();
      }
      ok := true;
      PosIs();
      BlockEnds(parse.toks, end, v0, r0, View());
    }

    lemma PosIs()
      requires Valid()
      ensures View().pos == parse.pos && View().lp == loop && View().InFun() == (fstate != null)
      ensures Peek() == Parser.Peek(parse.toks, View().pos)
    {
    }

    method CompileStatement() returns (ok: bool)
      requires Valid()
      modifies this, parse, bytecode, fstate, unit
      ensures ok ==> Valid()
      ensures DidStmt(old(View()), ok, ParseStmt(parse.toks, old(View()).pos, |old(View()).snap.funs|), View())
      decreases |parse.toks| - parse.pos, 2
    {
      hide Valid, Buffer.Valid, FunctionState.Valid, View, PlusStmt, WellPlaced, ParseDecls, ParseIf, ParseFor, ParseWhile, ParseTry, ParseFun;
      hide ParseExprSemi, Parser.Expect;
      PosIs();
      match Peek()
      case KwLet => ok := LetStatement();
      case KwFunction => ok := FunctionStatement();
      case KwIf => ok := IfStatement();
      case KwFor => ok := ForStatement();
      case KwWhile => ok := WhileStatement();
      case KwBreak => ok := LeaveStatement(Break);
      case KwContinue => ok := LeaveStatement(Continue);
      case KwReturn => ok := ReturnStatement();
      case KwThrow => ok := ThrowStatement();
      case KwTry => ok := TryStatement();
      case _ => ok := ExpressionStatement();
    }

    method ExpressionStatement() returns (ok: bool)
      requires Valid() && Peek() !in {KwLet, KwFunction, KwIf, KwFor, KwWhile, KwBreak, KwContinue, KwReturn, KwThrow, KwTry}
      modifies this, parse, bytecode, fstate, unit
      ensures ok ==> Valid()
      ensures DidStmt(old(View()), ok, ParseStmt(parse.toks, old(View()).pos, |old(View()).snap.funs|), View())
      decreases |parse.toks| - parse.pos, 1
    {
      hide Valid, Buffer.Valid, FunctionState.Valid, View, WithExpr, PlusStmt, ParseExpr;
      PosIs();
      ghost var v, e := View(), ParseExpr(parse.toks, View().pos);
      ok := Expression();
      if ok {
        ok := Expect(Semicolon);
        Push(Pop, 0);
        PlusExprStmt(v.snap, e.tree, v.tries, v.lp);
      }
    }

    method ThrowStatement() returns (ok: bool)
      requires Valid() && Peek() == KwThrow
      modifies this, parse, bytecode, fstate, unit
      ensures ok ==> Valid()
      ensures DidStmt(old(View()), ok, ParseStmt(parse.toks, old(View()).pos, |old(View()).snap.funs|), View())
      decreases |parse.toks| - parse.pos, 1
    {
      hide Valid, Buffer.Valid, FunctionState.Valid, View, ParseExpr, ParseStmt, DidStmt;
      PosIs();
      ghost var v := View();
      Next();
      var read := Expression();
      ghost var w := View();
      ok := false;
      if read {
        Push(ThrowOp, 0);
        ok := Expect(Semicolon);
      }
      ThrowDid(parse.toks, v, read, w, ok, View());
    }

    method ReturnStatement() returns (ok: bool)
      requires Valid() && Peek() == KwReturn
      modifies this, parse, bytecode, fstate, unit
      ensures ok ==> Valid()
      ensures DidStmt(old(View()), ok, ParseStmt(parse.toks, old(View()).pos, |old(View()).snap.funs|), View())
      decreases |parse.toks| - parse.pos, 1
    {
      hide Valid, Buffer.Valid, FunctionState.Valid, View, ParseExpr, ParseStmt, DidStmt;
      PosIs();
      ghost var v := View();
      Next();
      PosIs();
      ok := false;
      if fstate == null {
        ReturnRefused(parse.toks, v, View());
        return;
      }
      var read := true;
      if Peek() != Semicolon {
        read := Expression();
      } else {
        Push(ConstNull, 0);
      }
      ghost var w := View();
      if read {
        ok := Expect(Semicolon);
        Push(Ret, 0);
      }
      ReturnDid(parse.toks, v, read, w, ok, View());
    }

    method LeaveStatement(s: Stmt) returns (ok: bool)
      requires Valid() && s in {Break, Continue} && Peek() == if s.Break? then KwBreak else KwContinue
      modifies this, parse, bytecode, fstate, unit
      ensures ok ==> Valid()
      ensures DidStmt(old(View()), ok, ParseStmt(parse.toks, old(View()).pos, |old(View()).snap.funs|), View())
      decreases |parse.toks| - parse.pos, 1
    {
      hide LeftLoop, Valid, Buffer.Valid, FunctionState.Valid, View, ParseStmt, DidStmt;
      PosIs();
      ghost var v := View();
      ok := LeaveHead();
      if ok {
        LeaveLoop(s);
      }
      LeaveDid(parse.toks, v, s, ok, View());
    }

    /** The keyword, inside a loop only, and the semicolon. */
    method LeaveHead() returns (ok: bool)
      requires Valid() && Peek() != Eof
      modifies parse
      ensures Valid()
      ensures var v := old(View());
              ok == (v.lp.Some? && Parser.Peek(parse.toks, v.pos + 1) == Semicolon) && (ok ==> View() == v.(pos := v.pos + 2))
    {
      hide Valid, Buffer.Valid, FunctionState.Valid, View;
      PosIs();
      Next();
      PosIs();
      if loop.None? {
        return false;
      }
      ok := Expect(Semicolon);
    }

    /** Out of the `try`s inside the loop, and to one of its labels. */
    method LeaveLoop(s: Stmt)
      requires Valid() && View().lp.Some?
      modifies bytecode
      ensures Valid() && View() == LeftLoop(old(View()), s)
    {
      hide Emit, WithPops, Valid, Buffer.Valid, FunctionState.Valid, View;
      PosIs();
      LeaveTries(loop.value.tries);
      PosIs();
      PushRef(Jump, if s.Break? then loop.value.breakTo else loop.value.continueTo);
    }

    /** One `PopTry` for each `try` inside the loop. */
    method LeaveTries(tries: nat)
      requires Valid()
      modifies bytecode
      ensures Valid() && View() == old(View()).(snap := old(View()).snap.(out := WithPops(old(View()).snap.out, tries)))
    {
      hide Emit, WithPops, Valid, Buffer.Valid, FunctionState.Valid, View;
      ghost var w := View();
      var i := 0;
      PopsStep(w.snap.out, 0);
      while i < tries
        invariant i <= tries && Valid() && View() == w.(snap := w.snap.(out := WithPops(w.snap.out, i)))
      {
        PopsStep(w.snap.out, i + 1);
        Push(PopTry, 0);
        i := i + 1;
      }
    }

    method LetStatement() returns (ok: bool)
      requires Valid() && Peek() == KwLet
      modifies this, parse, bytecode, fstate, unit
      ensures ok ==> Valid()
      ensures DidStmt(old(View()), ok, ParseStmt(parse.toks, old(View()).pos, |old(View()).snap.funs|), View())
      decreases |parse.toks| - parse.pos, 1
    {
      hide Valid, Buffer.Valid, FunctionState.Valid, View, PlusStmt, PlusDecls, ParseDecls, ParseStmt, DidStmt;
      PosIs();
      ghost var v := View();
      Next();
      PosIs();
      ghost var u := View();
      ok := Declarations();
      LetDid(parse.toks, v, u, ok, View());
    }

    /** Declarations up to and including the semicolon. */
    method Declarations() returns (ok: bool)
      requires Valid()
      modifies parse, bytecode, fstate, this`consts
      ensures ok ==> Valid()
      ensures var v := old(View());
              var r := ParseDecls(parse.toks, v.pos);
              ok == r.Ok? && (ok ==> v.Becomes(r.pos, PlusDecls(v.snap, r.tree), View()))
      decreases |parse.toks| - parse.pos, 6
    {
      hide Emit, Valid, Buffer.Valid, FunctionState.Valid, View, PlusDecl, PlusDecls, ParseDecls, ParseDecl;
      ghost var v := View();
      ghost var r0 := ParseDecls(parse.toks, v.pos);
      ghost var r := r0;
      PosIs();
      while true
        invariant Valid() && v.Becomes(View().pos, View().snap, View()) && View().pos == parse.pos >= v.pos
        invariant r == ParseDecls(parse.toks, View().pos) && r.Ok? == r0.Ok?
        invariant r.Ok? ==> r.pos == r0.pos && PlusDecls(View().snap, r.tree) == PlusDecls(v.snap, r0.tree)
        decreases |parse.toks| - parse.pos
      {
        ghost var w := View();
        ghost var d := ParseDecl(parse.toks, w.pos);
        DeclsRead(parse.toks, w.pos);
        ok := Declaration();
        if !ok {
          return;
        }
        PosIs();
        if Peek() != Comma {
          PlusDeclsCons(w.snap, d.tree, Nil);
          PlusDeclsNil(View().snap);
          break;
        }
        Next();
        PosIs();
        ghost var more := ParseDecls(parse.toks, View().pos);
        if more.Ok? {
          PlusDeclsCons(w.snap, d.tree, more.tree);
        }
        r := more;
      }
      ok := Expect(Semicolon);
    }

    /** One name with its initial value, `null` by default. */
    method Declaration() returns (ok: bool)
      requires Valid()
      modifies parse, bytecode, fstate, this`consts
      ensures ok ==> Valid()
      ensures var v := old(View());
              var d := ParseDecl(parse.toks, v.pos);
              && ok == d.Ok?
              && (ok ==> v.Becomes(d.pos, PlusDecl(v.snap, d.tree), View()))
      decreases |parse.toks| - parse.pos, 5
    {
      hide Valid, Buffer.Valid, FunctionState.Valid, View, WithExpr, WithDeclare, ParseExpr;
      PosIs();
      var x := Peek();
      if !x.Ident? {
        return false;
      }
      Next();
      PosIs();
      if Peek() == Equal {
        Next();
        PosIs();
        ok := Expression();
        if !ok {
          return;
        }
      } else {
        Push(ConstNull, 0);
      }
      DeclareName(x.x);
      ok := true;
    }

    /** `{`, statements in a scope of their own, `}`. */
    method Braces() returns (ok: bool)
      requires Valid()
      modifies this, parse, bytecode, fstate, unit
      ensures ok ==> Valid()
      ensures var v := old(View());
              var r := ParseBraces(parse.toks, v.pos, |v.snap.funs|);
              && ok == (r.Ok? && BlockWellPlaced(r.tree, v.InFun(), v.lp.Some?))
              && (ok ==> v.Becomes(r.pos, PlusBlock(v.snap, r.tree, v.tries, v.lp).(scope := v.snap.scope), View()))
      decreases |parse.toks| - parse.pos, 2
    {
      hide Valid, Buffer.Valid, FunctionState.Valid, View, PlusBlock, ParseBlock, ParseBraces, BlockWellPlaced;
      ghost var v := View();
      PosIs();
      BracesRead(parse.toks, v.pos, |v.snap.funs|);
      TailIs();
      ok := Expect(LeftBrace);
      if !ok {
        return;
      }
      PushScope();
      PosIs();
      ok := CompileUntil(RightBrace);
      if !ok {
        return;
      }
      PosIs();
      PopScope(v);
      Next();
    }

    // ----- steps that several statements share -----

    method TwoLabels() returns (a: nat, b: nat)
      requires Valid()
      modifies bytecode
      ensures Valid() && a == |old(View()).labels| && b == a + 1 && View() == old(View()).Labelled().Labelled()
      ensures Keeps(old(View()).labels, View().labels)
    {
      hide Valid, Buffer.Valid, FunctionState.Valid, View;
      a := NewLabel();
      b := NewLabel();
    }

    /** A condition, the jump past what it guards, and the closing parenthesis. */
    method Condition(target: nat) returns (ok: bool)
      requires Valid() && target < |View().labels|
      modifies parse, bytecode, this`consts
      ensures ok ==> Valid()
      ensures var v := old(View());
              var r := ParseExpr(parse.toks, v.pos);
              && ok == (r.Ok? && Parser.Peek(parse.toks, r.pos) == RightParen)
              && (ok ==> v.Becomes(r.pos + 1, v.snap.(out := Emit(WithExpr(v.snap.out, r.tree, v.snap.scope), Ref(JumpIfFalse, target))), View()))
      decreases |parse.toks| - parse.pos, 5
    {
      hide Emit, Valid, Buffer.Valid, FunctionState.Valid, View, WithExpr, ParseExpr;
      ok := Expression();
      if !ok {
        return;
      }
      PushRef(JumpIfFalse, target);
      ok := Expect(RightParen);
    }

    /** The keyword of a statement and an opening parenthesis. */
    method KeywordParen() returns (ok: bool)
      requires Valid() && Peek() != Eof
      modifies parse
      ensures Valid() && ok == (Parser.Peek(parse.toks, old(View()).pos + 1) == LeftParen)
      ensures ok ==> View() == old(View()).(pos := old(View()).pos + 2)
    {
      hide Valid, Buffer.Valid, FunctionState.Valid, View;
      Next();
      ok := Expect(LeftParen);
    }

    /** Statements in braces inside a loop. */
    method LoopBraces(lp: Loop) returns (ok: bool)
      requires Valid() && LoopFits(Some(lp), |View().labels|)
      modifies this, parse, bytecode, fstate, unit
      ensures ok ==> Valid()
      ensures var v := old(View());
              var r := ParseBraces(parse.toks, v.pos, |v.snap.funs|);
              && ok == (r.Ok? && BlockWellPlaced(r.tree, v.InFun(), true))
              && (ok ==> v.Becomes(r.pos, PlusBlock(v.snap, r.tree, v.tries, Some(lp)).(scope := v.snap.scope), View()))
      decreases |parse.toks| - parse.pos, 3
    {
      hide Valid, Buffer.Valid, FunctionState.Valid, View, PlusBlock, ParseBraces, BlockWellPlaced;
      PosIs();
      var outer := loop;
      SetLoop(Some(lp));
      ok := Braces();
      if !ok {
        return;
      }
      SetLoop(outer);
    }

    method JumpAndMark(target: nat, l: nat)
      requires Valid() && target < |View().labels| && Open(View().labels, l)
      modifies bytecode
      ensures Valid() && l < |View().labels|
      ensures var v := old(View()).Add(Ref(Jump, target)).Add(Mark(l)); View() == v.(labels := v.labels[l := View().labels[l]])
    {
      hide Valid, Buffer.Valid, FunctionState.Valid, View;
      PushRef(Jump, target);
      MarkLabel(l);
    }

    lemma TailIs()
      requires Valid()
      ensures fstate == null ==> View().tail == []
      ensures fstate != null ==> fstate.levels != [] && View().tail == fstate.levels[1..]
    {
    }

    method IfStatement() returns (ok: bool)
      requires Valid() && Peek() == KwIf
      modifies this, parse, bytecode, fstate, unit
      ensures ok ==> Valid()
      ensures DidStmt(old(View()), ok, ParseIf(parse.toks, old(View()).pos, |old(View()).snap.funs|), View())
      decreases |parse.toks| - parse.pos, 1
    {
      hide Emit, Emission.NewLabel, PlusBranches, Valid, Buffer.Valid, FunctionState.Valid, View, WithExpr, DidStmt;
      hide ParseIf, ParseExpr, ParseBraces, ParseElse, BlockWellPlaced, ElseWellPlaced;
      PosIs();
      ghost var v, toks := View(), parse.toks;
      ghost var c := ParseExpr(toks, v.pos + 2);
      ghost var good := Parser.Peek(toks, v.pos + 1) == LeftParen && c.Ok? && Parser.Peek(toks, c.pos) == RightParen;
      ghost var t := if good then ParseBraces(toks, c.pos + 1, |v.snap.funs|) else Bad;
      ghost var e := if t.Ok? then ParseElse(toks, t.pos, |v.snap.funs| + |BlockFuns(t.tree)|) else Bad;
      var elseLabel;
      ok, elseLabel := IfHead();
      if !ok {
        IfDid(toks, v, c, t, e, false, View());
        return;
      }
      ghost var labels1, e1 := View().labels, e;
      PosIs();
      ok, e1 := Branches(elseLabel, elseLabel + 1);
      if ok {
        KeepsBoth(v.labels, labels1, View().labels);
      }
      IfDid(toks, v, c, t, e, ok, View());
    }

    /** The condition and its jump to the first of two new labels. */
    method IfHead() returns (ok: bool, elseLabel: nat)
      requires Valid() && Peek() == KwIf
      modifies parse, bytecode, this`consts
      ensures ok ==> Valid()
      ensures var v := old(View());
              var c := ParseExpr(parse.toks, v.pos + 2);
              && ok == (Parser.Peek(parse.toks, v.pos + 1) == LeftParen && c.Ok? && Parser.Peek(parse.toks, c.pos) == RightParen)
              && (ok ==>
                    && elseLabel == |v.labels| == v.snap.out.labels
                    && View() == v.To(c.pos + 1, v.snap.(out := Emit(WithExpr(Emission.NewLabel(Emission.NewLabel(v.snap.out)), c.tree, v.snap.scope), Ref(JumpIfFalse, elseLabel))), View())
                    && Keeps(v.labels, View().labels) && Open(View().labels, elseLabel) && Open(View().labels, elseLabel + 1))
      decreases |parse.toks| - parse.pos, 0
    {
      hide Emit, Emission.NewLabel, Valid, Buffer.Valid, FunctionState.Valid, View, WithExpr, ParseExpr, Keeps;
      ghost var v := View();
      ok, elseLabel := IfLabels();
      if !ok {
        return;
      }
      ghost var w := View();
      PosIs();
      ok := Condition(elseLabel);
      if ok {
        KeepsTrans(v.labels, w.labels, View().labels);
        StillOpen(w.labels, View().labels, elseLabel);
        StillOpen(w.labels, View().labels, elseLabel + 1);
      }
    }

    method IfLabels() returns (ok: bool, elseLabel: nat)
      requires Valid() && Peek() == KwIf
      modifies parse, bytecode
      ensures Valid()
      ensures var v := old(View());
              && ok == (Parser.Peek(parse.toks, v.pos + 1) == LeftParen)
              && (ok ==>
                    && elseLabel == |v.labels| == v.snap.out.labels
                    && View() == v.To(v.pos + 2, v.snap.(out := Emission.NewLabel(Emission.NewLabel(v.snap.out))), View())
                    && Keeps(v.labels, View().labels) && Open(View().labels, elseLabel) && Open(View().labels, elseLabel + 1))
    {
      hide Emission.NewLabel, Valid, Buffer.Valid, FunctionState.Valid, View;
      elseLabel := 0;
      PosIs();
      ok := KeywordParen();
      if ok {
        var endLabel;
        elseLabel, endLabel := TwoLabels();
      }
    }

    method Branches(elseLabel: nat, endLabel: nat) returns (ok: bool, ghost e: Parsed<Else>)
      requires Valid() && endLabel == elseLabel + 1 && Open(View().labels, elseLabel) && Open(View().labels, endLabel)
      modifies this, parse, bytecode, fstate, unit
      ensures ok ==> Valid()
      ensures var v := old(View());
              var t := ParseBraces(parse.toks, v.pos, |v.snap.funs|);
              && e == (if t.Ok? then ParseElse(parse.toks, t.pos, |v.snap.funs| + |BlockFuns(t.tree)|) else Bad)
              && ok == (e.Ok? && BlockWellPlaced(t.tree, v.InFun(), v.lp.Some?) && ElseWellPlaced(e.tree, v.InFun(), v.lp.Some?))
              && (ok ==> && View() == v.To(e.pos, PlusBranches(v.snap, t.tree, e.tree, v.tries, v.lp, elseLabel), View())
                         && KeepsUpTo(v.labels, View().labels, elseLabel))
      decreases |parse.toks| - parse.pos, 3
    {
      hide Valid, Buffer.Valid, FunctionState.Valid, View, PlusBlock, PlusElse;
      hide ParseBraces, ParseElse, BlockWellPlaced, ElseWellPlaced;
      PosIs();
      ghost var v, t := View(), ParseBraces(parse.toks, View().pos, |View().snap.funs|);
      e := if t.Ok? then ParseElse(parse.toks, t.pos, |v.snap.funs| + |BlockFuns(t.tree)|) else Bad;
      ok := Braces();
      if !ok {
        return;
      }
      BlockFunsGrow(v.snap, t.tree, v.tries, v.lp);
      JumpAndMark(endLabel, elseLabel);
      PosIs();
      ok := CompileElse();
      if !ok {
        return;
      }
      MarkLabel(endLabel);
    }

    /** Statements in braces, without a scope of their own. */
    method BareBraces() returns (ok: bool)
      requires Valid()
      modifies this, parse, bytecode, fstate, unit
      ensures ok ==> Valid()
      ensures var v := old(View());
              var r := ParseBraces(parse.toks, v.pos, |v.snap.funs|);
              && ok == (r.Ok? && BlockWellPlaced(r.tree, v.InFun(), v.lp.Some?))
              && (ok ==> v.Becomes(r.pos, PlusBlock(v.snap, r.tree, v.tries, v.lp), View()))
      decreases |parse.toks| - parse.pos, 1
    {
      hide Valid, Buffer.Valid, FunctionState.Valid, View, PlusBlock, ParseBlock, ParseBraces, BlockWellPlaced;
      PosIs();
      BracesRead(parse.toks, View().pos, |View().snap.funs|);
      ok := Expect(LeftBrace);
      if !ok {
        return;
      }
      PosIs();
      ok := CompileUntil(RightBrace);
      if !ok {
        return;
      }
      PosIs();
      Next();
    }

    method CompileElse() returns (ok: bool)
      requires Valid()
      modifies this, parse, bytecode, fstate, unit
      ensures ok ==> Valid()
      ensures var v := old(View());
              var r := ParseElse(parse.toks, v.pos, |v.snap.funs|);
              && ok == (r.Ok? && ElseWellPlaced(r.tree, v.InFun(), v.lp.Some?))
              && (ok ==> v.Becomes(r.pos, PlusElse(v.snap, r.tree, v.tries, v.lp), View()))
      decreases |parse.toks| - parse.pos, 2
    {
      hide Valid, Buffer.Valid, FunctionState.Valid, View, PlusStmt, PlusBlock, PlusElse, ParseBraces, ParseIf, WellPlaced, BlockWellPlaced;
      PosIs();
      ghost var v, r := View(), ParseElse(parse.toks, View().pos, |View().snap.funs|);
      if Peek() != KwElse {
        PlusNoElse(v.snap, v.tries, v.lp);
        return true;
      }
      Next();
      PosIs();
      if Peek() == KwIf {
        ok := IfStatement();
        if ok {
          PlusElseIf(v.snap, r.tree.s, v.tries, v.lp);
        }
      } else {
        ok := BareBraces();
        if ok {
          PlusElseBlock(v.snap, r.tree.body, v.tries, v.lp);
        }
      }
    }

    method WhileStatement() returns (ok: bool)
      requires Valid() && Peek() == KwWhile
      modifies this, parse, bytecode, fstate, unit
      ensures ok ==> Valid()
      ensures DidStmt(old(View()), ok, ParseWhile(parse.toks, old(View()).pos, |old(View()).snap.funs|), View())
      decreases |parse.toks| - parse.pos, 1
    {
      hide Keeps, KeepsUpTo, Emission.NewLabel, Valid, Buffer.Valid, FunctionState.Valid, View, PlusLooping, DidStmt;
      hide ParseWhile, ParseExpr, ParseBraces, BlockWellPlaced;
      PosIs();
      ghost var v, toks := View(), parse.toks;
      ghost var c := ParseExpr(toks, v.pos + 2);
      ghost var good := Parser.Peek(toks, v.pos + 1) == LeftParen && c.Ok? && Parser.Peek(toks, c.pos) == RightParen;
      ghost var body := if good then ParseBraces(toks, c.pos + 1, |v.snap.funs|) else Bad;
      var startLabel;
      ok, startLabel := WhileHead();
      if !ok {
        WhileDid(toks, v, c, body, false, View());
        return;
      }
      PosIs();
      ghost var labels1, c1, body1 := View().labels, c, body;
      ok, c1, body1 := Looping(startLabel, startLabel + 1);
      if ok {
        KeepsBoth(v.labels, labels1, View().labels);
      }
      WhileDid(toks, v, c, body, ok, View());
    }

    method WhileHead() returns (ok: bool, startLabel: nat)
      requires Valid() && Peek() == KwWhile
      modifies parse, bytecode
      ensures Valid()
      ensures var v := old(View());
              && ok == (Parser.Peek(parse.toks, v.pos + 1) == LeftParen)
              && startLabel == |v.labels| == v.snap.out.labels
              && (ok ==>
                    && View() == v.To(v.pos + 2, v.snap.(out := Emission.NewLabel(Emission.NewLabel(v.snap.out))), View())
                    && Keeps(v.labels, View().labels) && Open(View().labels, startLabel) && Open(View().labels, startLabel + 1))
    {
      hide Emission.NewLabel, Valid, Buffer.Valid, FunctionState.Valid, View;
      PosIs();
      var endLabel;
      startLabel, endLabel := TwoLabels();
      PosIs();
      ok := KeywordParen();
    }

    method Looping(startLabel: nat, endLabel: nat) returns (ok: bool, ghost c: Parsed<Expr>, ghost body: Parsed<List<Stmt>>)
      requires Valid() && endLabel == startLabel + 1 && Open(View().labels, startLabel) && Open(View().labels, endLabel)
      modifies this, parse, bytecode, fstate, unit
      ensures ok ==> Valid()
      ensures var v := old(View());
              && c == ParseExpr(parse.toks, v.pos)
              && body == (if c.Ok? && Parser.Peek(parse.toks, c.pos) == RightParen then ParseBraces(parse.toks, c.pos + 1, |v.snap.funs|) else Bad)
              && ok == (body.Ok? && BlockWellPlaced(body.tree, v.InFun(), true))
              && (ok ==> && View() == v.To(body.pos, PlusLooping(v.snap, c.tree, body.tree, v.tries, startLabel), View())
                         && KeepsUpTo(v.labels, View().labels, startLabel))
      decreases |parse.toks| - parse.pos, 6
    {
      hide Emit, Valid, Buffer.Valid, FunctionState.Valid, View, WithExpr, PlusBlock, ParseExpr, ParseBraces, BlockWellPlaced;
      PosIs();
      c := ParseExpr(parse.toks, View().pos);
      body := if c.Ok? && Parser.Peek(parse.toks, c.pos) == RightParen then ParseBraces(parse.toks, c.pos + 1, |View().snap.funs|) else Bad;
      MarkLabel(startLabel);
      PosIs();
      ok := Condition(endLabel);
      if !ok {
        return;
      }
      PosIs();
      ok := LoopBraces(Loop(endLabel, startLabel, 0));
      if !ok {
        return;
      }
      JumpAndMark(startLabel, endLabel);
    }

    method CompileInit() returns (ok: bool)
      requires Valid()
      modifies this, parse, bytecode, fstate, unit
      ensures ok ==> Valid()
      ensures var v := old(View());
              var r := ParseInit(parse.toks, v.pos, |v.snap.funs|);
              && ok == (r.Ok? && (r.tree.Some? ==> WellPlaced(r.tree.value, v.InFun(), v.lp.Some?)))
              && (ok ==> v.Becomes(r.pos, PlusInit(v.snap, r.tree, v.tries, v.lp), View()))
      decreases |parse.toks| - parse.pos, 3
    {
      hide Valid, Buffer.Valid, FunctionState.Valid, View, PlusStmt, ParseStmt, WellPlaced;
      PosIs();
      if Peek() == Semicolon {
        Next();
        ok := true;
      } else {
        ok := CompileStatement();
      }
    }

    /** The condition of a loop, if there is one, and the semicolon. */
    method CompileTest(endLabel: nat) returns (ok: bool)
      requires Valid() && endLabel < |View().labels|
      modifies parse, bytecode, this`consts
      ensures ok ==> Valid()
      ensures var v := old(View());
              var r := ParseOptional(parse.toks, v.pos, Semicolon);
              && ok == r.Ok?
              && (ok ==> v.Becomes(r.pos, v.snap.(out := WithTest(v.snap.out, r.tree, v.snap.scope, endLabel)), View()))
    {
      hide Valid, Buffer.Valid, FunctionState.Valid, View, WithExpr, ParseExpr;
      PosIs();
      if Peek() != Semicolon {
        ok := Expression();
        if !ok {
          return;
        }
        PushRef(JumpIfFalse, endLabel);
      }
      ok := Expect(Semicolon);
    }

    /** The step of a loop, if there is one, and the closing parenthesis. */
    method CompileStep() returns (ok: bool)
      requires Valid()
      modifies parse, bytecode, this`consts
      ensures ok ==> Valid()
      ensures var v := old(View());
              var r := ParseOptional(parse.toks, v.pos, RightParen);
              && ok == r.Ok?
              && (ok ==> v.Becomes(r.pos, v.snap.(out := WithStep(v.snap.out, r.tree, v.snap.scope)), View()))
    {
      hide Valid, Buffer.Valid, FunctionState.Valid, View, WithExpr, ParseExpr;
      PosIs();
      if Peek() != RightParen {
        ok := Expression();
        if !ok {
          return;
        }
        Push(Pop, 0);
      }
      ok := Expect(RightParen);
    }

    /** Condition and step, with the jumps that put the step after the body. */
    method LoopHeader(l: nat) returns (ok: bool, ghost c: Parsed<Option<Expr>>, ghost step: Parsed<Option<Expr>>)
      requires Valid() && l + 4 <= |View().labels|
      requires forall i :: l <= i < l + 4 ==> View().labels[i] < 0
      modifies parse, bytecode, this`consts
      ensures ok ==> Valid()
      ensures var v := old(View());
              && c == ParseOptional(parse.toks, v.pos, Semicolon)
              && step == (if c.Ok? then ParseOptional(parse.toks, c.pos, RightParen) else Bad)
              && ok == (step.Ok? && Parser.Peek(parse.toks, step.pos) == LeftBrace)
              && (ok ==> && View() == v.To(step.pos + 1, v.snap.(out := ForHeader(v.snap.out, c.tree, step.tree, v.snap.scope, l)), View())
                         && KeepsUpTo(v.labels, View().labels, l) && Open(View().labels, l + 1) && l + 4 <= |View().labels|)
    {
      hide Valid, Buffer.Valid, FunctionState.Valid, View, WithTest, WithStep, ParseOptional;
      c := ParseOptional(parse.toks, View().pos, Semicolon);
      step := if c.Ok? then ParseOptional(parse.toks, c.pos, RightParen) else Bad;
      MarkLabel(l);
      ok := CompileTest(l + 1);
      if !ok {
        return;
      }
      JumpAndMark(l + 3, l + 2);
      ok := CompileStep();
      if !ok {
        return;
      }
      ok := Expect(LeftBrace);
      if !ok {
        return;
      }
      JumpAndMark(l, l + 3);
    }

    method ForStatement() returns (ok: bool)
      requires Valid() && Peek() == KwFor
      modifies this, parse, bytecode, fstate, unit
      ensures ok ==> Valid()
      ensures DidStmt(old(View()), ok, ParseFor(parse.toks, old(View()).pos, |old(View()).snap.funs|), View())
      decreases |parse.toks| - parse.pos, 1
    {
      hide Keeps, KeepsUpTo, Emission.NewLabel, Valid, Buffer.Valid, FunctionState.Valid, View, PlusForParts, DidStmt;
      hide ParseFor, ParseInit, ParseOptional, ParseBraces, InitFuns, BlockWellPlaced, WellPlaced;
      PosIs();
      ghost var v, toks := View(), parse.toks;
      var l;
      ok, l := ForHead();
      if !ok {
        ForRefused(toks, v, View());
        return;
      }
      PosIs();
      ghost var u := View();
      ghost var init, c, step, body;
      ok, init, c, step, body := ForParts(l);
      ForPartsDid(toks, v, u, init, c, step, body, ok, View());
    }

    /** The labels of the start, the end, the step and the body. */
    method ForHead() returns (ok: bool, l: nat)
      requires Valid() && Peek() == KwFor
      modifies parse, bytecode
      ensures Valid()
      ensures var v := old(View());
              && ok == (Parser.Peek(parse.toks, v.pos + 1) == LeftParen)
              && l == |v.labels| == v.snap.out.labels
              && (ok ==>
                    && View() == v.To(v.pos + 2, v.snap.(out := Emission.NewLabel(Emission.NewLabel(Emission.NewLabel(Emission.NewLabel(v.snap.out))))), View())
                    && Keeps(v.labels, View().labels) && l + 4 <= |View().labels| && forall i :: l <= i < l + 4 ==> View().labels[i] < 0)
    {
      hide Emission.NewLabel, Valid, Buffer.Valid, FunctionState.Valid, View;
      PosIs();
      var endLabel, stepLabel, bodyLabel;
      l, endLabel := TwoLabels();
      stepLabel, bodyLabel := TwoLabels();
      PosIs();
      ok := KeywordParen();
    }

    /** From the initialiser on, in a scope that the whole statement shares. */
    method ForParts(l: nat) returns (ok: bool, ghost init: Parsed<Option<Stmt>>, ghost c: Parsed<Option<Expr>>,
                                     ghost step: Parsed<Option<Expr>>, ghost body: Parsed<List<Stmt>>)
      requires Valid() && l + 4 <= |View().labels|
      requires forall i :: l <= i < l + 4 ==> View().labels[i] < 0
      modifies this, parse, bytecode, fstate, unit
      ensures ok ==> Valid()
      ensures var v := old(View());
              && init == ParseInit(parse.toks, v.pos, |v.snap.funs|)
              && c == (if init.Ok? then ParseOptional(parse.toks, init.pos, Semicolon) else Bad)
              && step == (if c.Ok? then ParseOptional(parse.toks, c.pos, RightParen) else Bad)
              && body == (if step.Ok? then ParseBraces(parse.toks, step.pos, |v.snap.funs| + |InitFuns(init.tree)|) else Bad)
              && ok == (&& body.Ok? && (init.tree.Some? ==> WellPlaced(init.tree.value, v.InFun(), v.lp.Some?))
                        && BlockWellPlaced(body.tree, v.InFun(), true))
              && (ok ==> && View() == v.To(body.pos, PlusForParts(v.snap, init.tree, c.tree, step.tree, body.tree, v.tries, v.lp, l), View())
                         && KeepsUpTo(v.labels, View().labels, l))
      decreases |parse.toks| - parse.pos, 5
    {
      hide Emit, Valid, Buffer.Valid, FunctionState.Valid, View, PlusLoop, PlusInit, KeepsUpTo;
      hide ParseInit, ParseOptional, ParseBraces, InitFuns, BlockWellPlaced, WellPlaced;
      ghost var v := View();
      TailIs();
      PosIs();
      PushScope();
      PosIs();
      ok, init, c, step, body := ForInside(l);
      if !ok {
        return;
      }
      PopScope(v);
      ghost var w := View();
      JumpAndMark(l + 2, l + 1);
      UpToSet(w.labels, l + 1, View().labels[l + 1], l);
      UpToTrans(v.labels, w.labels, View().labels, l);
    }

    /** From the initialiser to the end of the body, without the jump back. */
    method ForInside(l: nat) returns (ok: bool, ghost init: Parsed<Option<Stmt>>, ghost c: Parsed<Option<Expr>>,
                                      ghost step: Parsed<Option<Expr>>, ghost body: Parsed<List<Stmt>>)
      requires Valid() && l + 4 <= |View().labels|
      requires forall i :: l <= i < l + 4 ==> View().labels[i] < 0
      modifies this, parse, bytecode, fstate, unit
      ensures ok ==> Valid()
      ensures var v := old(View());
              && init == ParseInit(parse.toks, v.pos, |v.snap.funs|)
              && c == (if init.Ok? then ParseOptional(parse.toks, init.pos, Semicolon) else Bad)
              && step == (if c.Ok? then ParseOptional(parse.toks, c.pos, RightParen) else Bad)
              && body == (if step.Ok? then ParseBraces(parse.toks, step.pos, |v.snap.funs| + |InitFuns(init.tree)|) else Bad)
              && ok == (&& body.Ok? && (init.tree.Some? ==> WellPlaced(init.tree.value, v.InFun(), v.lp.Some?))
                        && BlockWellPlaced(body.tree, v.InFun(), true))
              && (ok ==> && View() == v.To(body.pos, PlusLoop(PlusInit(v.snap, init.tree, v.tries, v.lp), c.tree, step.tree, body.tree, v.tries, l), View())
                         && KeepsUpTo(v.labels, View().labels, l) && Open(View().labels, l + 1) && l + 4 <= |View().labels|)
      decreases |parse.toks| - parse.pos, 4
    {
      hide Emit, Valid, Buffer.Valid, FunctionState.Valid, View, PlusLoop, PlusInit, KeepsUpTo;
      hide ParseInit, ParseOptional, ParseBraces, InitFuns, BlockWellPlaced, WellPlaced;
      ghost var v := View();
      init := ParseInit(parse.toks, v.pos, |v.snap.funs|);
      c := if init.Ok? then ParseOptional(parse.toks, init.pos, Semicolon) else Bad;
      step := if c.Ok? then ParseOptional(parse.toks, c.pos, RightParen) else Bad;
      body := if step.Ok? then ParseBraces(parse.toks, step.pos, |v.snap.funs| + |InitFuns(init.tree)|) else Bad;
      PosIs();
      ok := CompileInit();
      if !ok {
        return;
      }
      InitFunsGrow(v.snap, init.tree, v.tries, v.lp);
      InitKind(v.snap, init.tree, v.tries, v.lp);
      ghost var w := View();
      KeepsLess(v.labels, w.labels, l);
      PosIs();
      ghost var c1, step1, body1;
      ok, c1, step1, body1 := LoopRest(l);
      if ok {
        UpToTrans(v.labels, w.labels, View().labels, l);
      }
    }

    /** Header and body of a `for` loop. */
    method LoopRest(l: nat) returns (ok: bool, ghost c: Parsed<Option<Expr>>, ghost step: Parsed<Option<Expr>>, ghost body: Parsed<List<Stmt>>)
      requires Valid() && l + 4 <= |View().labels|
      requires forall i :: l <= i < l + 4 ==> View().labels[i] < 0
      modifies this, parse, bytecode, fstate, unit
      ensures ok ==> Valid()
      ensures var v := old(View());
              && c == ParseOptional(parse.toks, v.pos, Semicolon)
              && step == (if c.Ok? then ParseOptional(parse.toks, c.pos, RightParen) else Bad)
              && body == (if step.Ok? then ParseBraces(parse.toks, step.pos, |v.snap.funs|) else Bad)
              && ok == (body.Ok? && BlockWellPlaced(body.tree, v.InFun(), true))
              && (ok ==> && View() == v.To(body.pos, PlusLoop(v.snap, c.tree, step.tree, body.tree, v.tries, l), View())
                         && KeepsUpTo(v.labels, View().labels, l) && Open(View().labels, l + 1) && l + 4 <= |View().labels|)
      decreases |parse.toks| - parse.pos, 3
    {
      hide Valid, Buffer.Valid, FunctionState.Valid, View, ForHeader, PlusBlock, ParseOptional, ParseBraces, ParseBlock, BlockWellPlaced;
      ghost var v := View();
      PosIs();
      ok, c, step := LoopHeader(l);
      body := if step.Ok? then ParseBraces(parse.toks, step.pos, |v.snap.funs|) else Bad;
      if step.Ok? {
        BracesRead(parse.toks, step.pos, |v.snap.funs|);
      }
      if !ok {
        return;
      }
      PosIs();
      ok := ForBody(l + 1, l + 2);
    }

    /** The statements of a loop body and the closing brace. */
    method ForBody(endLabel: nat, stepLabel: nat) returns (ok: bool)
      requires Valid() && endLabel < |View().labels| && stepLabel < |View().labels|
      modifies this, parse, bytecode, fstate, unit
      ensures ok ==> Valid()
      ensures var v := old(View());
              var r := ParseBlock(parse.toks, v.pos, |v.snap.funs|, RightBrace);
              && ok == (r.Ok? && BlockWellPlaced(r.tree, v.InFun(), true))
              && (ok ==> v.Becomes(r.pos, PlusBlock(v.snap, r.tree, v.tries, Some(Loop(endLabel, stepLabel, 0))), View()))
      decreases |parse.toks| - parse.pos, 4
    {
      hide Valid, Buffer.Valid, FunctionState.Valid, View, PlusBlock, ParseBlock, BlockWellPlaced;
      PosIs();
      var outer := loop;
      SetLoop(Some(Loop(endLabel, stepLabel, 0)));
      PosIs();
      ok := CompileUntil(RightBrace);
      if !ok {
        return;
      }
      PosIs();
      Next();
      SetLoop(outer);
    }

    method TryStatement() returns (ok: bool)
      requires Valid() && Peek() == KwTry
      modifies this, parse, bytecode, fstate, unit
      ensures ok ==> Valid()
      ensures DidStmt(old(View()), ok, ParseTry(parse.toks, old(View()).pos, |old(View()).snap.funs|), View())
      decreases |parse.toks| - parse.pos, 1
    {
      hide Keeps, KeepsUpTo, Emission.NewLabel, Valid, Buffer.Valid, FunctionState.Valid, View, PlusGuarded, DidStmt;
      hide ParseTry, ParseBraces, ParseCatchName, BlockWellPlaced;
      PosIs();
      ghost var v := View();
      var catchLabel := TryHead();
      ghost var labels1 := View().labels;
      ghost var body, name, handler;
      PosIs();
      ok, body, name, handler := Guarded(catchLabel, catchLabel + 1);
      if ok {
        KeepsBoth(v.labels, labels1, View().labels);
      }
      TryDid(parse.toks, v, body, name, handler, ok, View());
    }

    method TryHead() returns (catchLabel: nat)
      requires Valid() && Peek() == KwTry
      modifies parse, bytecode
      ensures Valid()
      ensures var v := old(View());
              && catchLabel == |v.labels| == v.snap.out.labels
              && View() == v.To(v.pos + 1, v.snap.(out := Emission.NewLabel(Emission.NewLabel(v.snap.out))), View())
              && Keeps(v.labels, View().labels) && Open(View().labels, catchLabel) && Open(View().labels, catchLabel + 1)
    {
      hide Emission.NewLabel, Valid, Buffer.Valid, FunctionState.Valid, View;
      Next();
      var endLabel;
      catchLabel, endLabel := TwoLabels();
    }

    method Guarded(catchLabel: nat, endLabel: nat)
      returns (ok: bool, ghost body: Parsed<List<Stmt>>, ghost name: Parsed<Option<Name>>, ghost handler: Parsed<List<Stmt>>)
      requires Valid() && endLabel == catchLabel + 1 && Open(View().labels, catchLabel) && Open(View().labels, endLabel)
      modifies this, parse, bytecode, fstate, unit
      ensures ok ==> Valid()
      ensures var v := old(View());
              && body == ParseBraces(parse.toks, v.pos, |v.snap.funs|)
              && name == (if body.Ok? && Parser.Peek(parse.toks, body.pos) == KwCatch then ParseCatchName(parse.toks, body.pos + 1) else Bad)
              && handler == (if name.Ok? then ParseBraces(parse.toks, name.pos, |v.snap.funs| + |BlockFuns(body.tree)|) else Bad)
              && ok == (handler.Ok? && BlockWellPlaced(body.tree, v.InFun(), v.lp.Some?) && BlockWellPlaced(handler.tree, v.InFun(), v.lp.Some?))
              && (ok ==> && View() == v.To(handler.pos, PlusGuarded(v.snap, body.tree, name.tree, handler.tree, v.tries, v.lp, catchLabel), View())
                         && KeepsUpTo(v.labels, View().labels, catchLabel))
      decreases |parse.toks| - parse.pos, 7
    {
      hide Emit, Valid, Buffer.Valid, FunctionState.Valid, View, PlusBlock, PlusRescue;
      hide ParseBraces, ParseCatchName, BlockWellPlaced, Deeper;
      ghost var v := View();
      body := ParseBraces(parse.toks, v.pos, |v.snap.funs|);
      name := if body.Ok? && Parser.Peek(parse.toks, body.pos) == KwCatch then ParseCatchName(parse.toks, body.pos + 1) else Bad;
      handler := if name.Ok? then ParseBraces(parse.toks, name.pos, |v.snap.funs| + |BlockFuns(body.tree)|) else Bad;
      PushRef(PushTry, catchLabel);
      PosIs();
      ghost var v1 := View();
      ok := TryBlock();
      if !ok {
        return;
      }
      BlockFunsGrow(v1.Deep().snap, body.tree, v.tries + 1, Deeper(v.lp));
      PosIs();
      ghost var name1, handler1;
      ok, name1, handler1 := Rescue(catchLabel, endLabel);
    }

    /** The braces of a `try`, one level deeper in try blocks. */
    method TryBlock() returns (ok: bool)
      requires Valid()
      modifies this, parse, bytecode, fstate, unit
      ensures ok ==> Valid()
      ensures var v := old(View());
              var r := ParseBraces(parse.toks, v.pos, |v.snap.funs|);
              && ok == (r.Ok? && BlockWellPlaced(r.tree, v.InFun(), v.lp.Some?))
              && (ok ==> v.Becomes(r.pos, PlusBlock(v.Deep().snap, r.tree, v.tries + 1, Deeper(v.lp)).(scope := v.snap.scope), View()))
      decreases |parse.toks| - parse.pos, 3
    {
      hide Valid, Buffer.Valid, FunctionState.Valid, View, PlusBlock, ParseBraces, BlockWellPlaced;
      ghost var outer := View().lp;
      EnterTry();
      ok := Braces();
      if !ok {
        return;
      }
      LeaveTry(outer);
    }

    method EnterCatch(catchLabel: nat, endLabel: nat)
      requires Valid() && endLabel == catchLabel + 1 && Open(View().labels, catchLabel) && Open(View().labels, endLabel)
      modifies bytecode
      ensures Valid()
      ensures var v := old(View());
              && View() == v.To(v.pos, v.snap.(out := CatchEntry(v.snap.out, catchLabel)), View())
              && KeepsUpTo(v.labels, View().labels, catchLabel) && Open(View().labels, endLabel) && |View().labels| == |v.labels|
    {
      hide Valid, Buffer.Valid, FunctionState.Valid, View;
      Push(PopTry, 0);
      JumpAndMark(endLabel, catchLabel);
      Push(Catch, 0);
    }

    /** From the end of the `try` block on. */
    method Rescue(catchLabel: nat, endLabel: nat) returns (ok: bool, ghost name: Parsed<Option<Name>>, ghost handler: Parsed<List<Stmt>>)
      requires Valid() && endLabel == catchLabel + 1 && Open(View().labels, catchLabel) && Open(View().labels, endLabel)
      modifies this, parse, bytecode, fstate, unit
      ensures ok ==> Valid()
      ensures var v := old(View());
              && name == (if Parser.Peek(parse.toks, v.pos) == KwCatch then ParseCatchName(parse.toks, v.pos + 1) else Bad)
              && handler == (if name.Ok? then ParseBraces(parse.toks, name.pos, |v.snap.funs|) else Bad)
              && ok == (handler.Ok? && BlockWellPlaced(handler.tree, v.InFun(), v.lp.Some?))
              && (ok ==> && View() == v.To(handler.pos, PlusRescue(v.snap, name.tree, handler.tree, v.tries, v.lp, catchLabel), View())
                         && KeepsUpTo(v.labels, View().labels, catchLabel))
      decreases |parse.toks| - parse.pos, 6
    {
      hide Emit, Emission.NewLabel, Valid, Buffer.Valid, FunctionState.Valid, View, CatchEntry, PlusCatch, ParseBraces, ParseCatchName, BlockWellPlaced, Keeps, KeepsUpTo;
      ghost var v := View();
      name := if Parser.Peek(parse.toks, v.pos) == KwCatch then ParseCatchName(parse.toks, v.pos + 1) else Bad;
      handler := if name.Ok? then ParseBraces(parse.toks, name.pos, |v.snap.funs|) else Bad;
      PosIs();
      EnterCatch(catchLabel, endLabel);
      ghost var w := View();
      ok := Expect(KwCatch);
      if !ok {
        return;
      }
      PosIs();
      ok := CatchBlock();
      if !ok {
        return;
      }
      ghost var x := View();
      StillOpen(w.labels, x.labels, endLabel);
      KeepsLess(w.labels, x.labels, catchLabel);
      MarkLabel(endLabel);
      UpToSet(x.labels, endLabel, View().labels[endLabel], catchLabel);
      UpToTrans(v.labels, w.labels, x.labels, catchLabel);
      UpToTrans(v.labels, x.labels, View().labels, catchLabel);
    }

    /** The name and the statements of a `catch`, in a scope of their own. */
    method CatchBlock() returns (ok: bool)
      requires Valid()
      modifies this, parse, bytecode, fstate, unit
      ensures ok ==> Valid()
      ensures var v := old(View());
              var name := ParseCatchName(parse.toks, v.pos);
              var r := if name.Ok? then ParseBraces(parse.toks, name.pos, |v.snap.funs|) else Bad;
              && ok == (r.Ok? && BlockWellPlaced(r.tree, v.InFun(), v.lp.Some?))
              && (ok ==> v.Becomes(r.pos, PlusCatch(v.snap, name.tree, r.tree, v.tries, v.lp), View()))
      decreases |parse.toks| - parse.pos, 5
    {
      hide Valid, Buffer.Valid, FunctionState.Valid, View, PlusBlock, ParseBlock, ParseBraces, ParseCatchName, BlockWellPlaced;
      ghost var v := View();
      ghost var name := ParseCatchName(parse.toks, v.pos);
      TailIs();
      PosIs();
      PushScope();
      PosIs();
      ok := CatchName();
      if !ok {
        return;
      }
      PosIs();
      ok := BareBraces();
      if !ok {
        return;
      }
      CatchSlots(v.snap, name.tree, ParseBraces(parse.toks, name.pos, |v.snap.funs|).tree, v.tries, v.lp);
      PopScope(v);
    }

    /** The caught value: bound to a name in parentheses, or dropped. */
    method CatchName() returns (ok: bool)
      requires Valid()
      modifies parse, bytecode, fstate
      ensures ok ==> Valid()
      ensures var v := old(View());
              var name := ParseCatchName(parse.toks, v.pos);
              && ok == name.Ok?
              && (ok ==> View() == v.(pos := name.pos, snap := PlusName(v.snap, name.tree)))
    {
      hide Valid, Buffer.Valid, FunctionState.Valid, View, WithDeclare;
      ok := true;
      PosIs();
      if Peek() == LeftParen {
        ok := NameInParens();
      } else {
        Push(Pop, 0);
      }
    }

    method NameInParens() returns (ok: bool)
      requires Valid() && Peek() == LeftParen
      modifies parse, bytecode, fstate
      ensures ok ==> Valid()
      ensures var v := old(View());
              var x := Parser.Peek(parse.toks, v.pos + 1);
              && ok == (x.Ident? && Parser.Peek(parse.toks, v.pos + 2) == RightParen)
              && (ok ==> View() == v.Declare(x.x).(pos := v.pos + 3))
    {
      hide Valid, Buffer.Valid, FunctionState.Valid, View, WithDeclare;
      ghost var v := View();
      PosIs();
      Next();
      PosIs();
      var x := Peek();
      ok := x.Ident?;
      if !ok {
        return;
      }
      Next();
      ok := Expect(RightParen);
      if ok {
        DeclareName(x.x);
        DeclareAt(v, x.x, v.pos + 3);
      }
    }

    static lemma DeclareAt(v: View, x: Name, pos: nat)
      ensures v.(pos := pos).Declare(x) == v.Declare(x).(pos := pos)
    {
    }

    // ----- functions -----

    /** Functions are compiled at module level only. */
    method FunctionStatement() returns (ok: bool)
      requires Valid() && Peek() == KwFunction
      modifies this, parse, bytecode, fstate, unit
      ensures ok ==> Valid()
      ensures DidStmt(old(View()), ok, ParseFun(parse.toks, old(View()).pos, |old(View()).snap.funs|), View())
      decreases |parse.toks| - parse.pos, 1
    {
      hide Valid, Buffer.Valid, FunctionState.Valid, View, Emit, NewConst, PlusStmt, ParseFun, BlockWellPlaced, CodeForFun, WithDeclare;
      PosIs();
      ghost var v, r := View(), ParseFun(parse.toks, View().pos, |View().snap.funs|);
      FunReads(parse.toks, v.pos, |v.snap.funs|);
      if fstate != null {
        return false;
      }
      var code: CompiledCode;
      ok, code := CompileFunction();
      if !ok {
        return;
      }
      var k := AddFunction(code);
      Push(LoadConst, k);
      assert code.name == r.tree.decl.name by { CodeName(r.tree.decl); }
      DeclareName(code.name);
      PlusFun(v.snap, r.tree.decl, v.tries, v.lp);
    }

    /** A function, compiled in a state of its own over the same tokens. */
    method CompileFunction() returns (ok: bool, code: CompiledCode)
      requires Valid() && Peek() == KwFunction && fstate == null
      modifies this, parse, bytecode, unit
      ensures ok ==> Valid()
      ensures var v := old(View());
              var r := ParseFun(parse.toks, v.pos, |v.snap.funs|);
              && ok == (r.Ok? && BlockWellPlaced(r.tree.decl.body, true, false))
              && (ok ==> View() == v.(pos := r.pos) && code == CodeForFun(r.tree.decl))
      decreases |parse.toks| - parse.pos, 0, 1
    {
      hide Buffer.Valid, FunctionState.Valid, ParseFun, BlockWellPlaced, CodeForFun;
      var inner := new CState.Inherit(this);
      ok, code := inner.ConstFunction();
    }

    /** A constant for a function just compiled. */
    method AddFunction(code: CompiledCode) returns (k: nat)
      requires Valid()
      modifies unit, this`consts
      ensures Valid() && k == |old(View()).snap.out.consts|
      ensures var v := old(View());
              View() == v.(snap := v.snap.(out := NewConst(v.snap.out, FunConst(|v.snap.funs|)), funs := v.snap.funs + [code]))
    {
      hide Buffer.Valid, FunctionState.Valid;
      unit.funs := unit.funs + [code];
      k := |consts|;
      consts := consts + [FunConst(|unit.funs| - 1)];
    }

    /** A whole function, in a state of its own. */
    method ConstFunction() returns (ok: bool, code: CompiledCode)
      requires Valid() && fstate != null && Peek() == KwFunction
      requires View() == ViewOf(View().pos, Snap(Emitted([], 0, []), View().snap.funs, Local([]), 0, 0), [], [], None, 0)
      modifies this, parse, bytecode, fstate, unit
      ensures ok ==> Valid()
      ensures var v := old(View());
              var r := ParseFun(parse.toks, v.pos, |v.snap.funs|);
              && ok == (r.Ok? && BlockWellPlaced(r.tree.decl.body, true, false))
              && (ok ==> View().pos == r.pos && View().snap.funs == v.snap.funs && code == CodeForFun(r.tree.decl))
      decreases |parse.toks| - parse.pos, 0, 0
    {
      hide Valid, Buffer.Valid, FunctionState.Valid, View, ParseFun, ParseParams, ParseBraces, BlockWellPlaced, CodeForFun, GenFun;
      ghost var v := View();
      code := CompiledCode([], [], 0, 0, 0, 0);
      PosIs();
      FunReads(parse.toks, v.pos, |v.snap.funs|);
      var name, count;
      ghost var params: Parsed<seq<Name>>;
      ok, name, count, params := FunctionHead();
      if !ok {
        return;
      }
      ghost var body := ParseBraces(parse.toks, params.pos, |v.snap.funs|);
      PosIs();
      ok := FunctionBody(count, params.tree);
      if !ok {
        return;
      }
      SameCode(0, name, params.tree, body.tree);
      code := CreateFunctionCode(name, count, FunDecl(name, params.tree, body.tree));
    }

    /** Name and parameters; the first label is where optional parameters would end. */
    method FunctionHead() returns (ok: bool, name: Name, count: nat, ghost params: Parsed<seq<Name>>)
      requires Valid() && fstate != null && Peek() == KwFunction
      requires View() == ViewOf(View().pos, Snap(Emitted([], 0, []), View().snap.funs, Local([]), 0, 0), [], [], None, 0)
      modifies parse, bytecode, fstate
      ensures ok ==> Valid()
      ensures var v := old(View());
              var x := Parser.Peek(parse.toks, v.pos + 1);
              && params == (if x.Ident? && Parser.Peek(parse.toks, v.pos + 2) == LeftParen then ParseParams(parse.toks, v.pos + 3, true) else Bad)
              && ok == params.Ok?
              && (ok ==> && name == x.x && count == |params.tree| && |View().labels| == 1
                         && var n := Snap(Emitted([Mark(0)], 1, []), v.snap.funs, Local(params.tree), count, 0);
                            View() == ViewOf(params.pos, n, View().labels, [], None, 0))
    {
      hide Valid, Buffer.Valid, FunctionState.Valid, View, ParseParams;
      ok, name, count, params := false, 0, 0, Bad;
      PosIs();
      Next();
      PosIs();
      var x := Peek();
      if !x.Ident? {
        return;
      }
      name := x.x;
      Next();
      var optional := NewLabel();
      ok := Expect(LeftParen);
      if !ok {
        return;
      }
      params := ParseParams(parse.toks, View().pos, true);
      ok, count := Parameters();
      if !ok {
        return;
      }
      MarkLabel(optional);
      assert [] + params.tree == params.tree;
    }

    /** Parameters up to the closing parenthesis take the first slots. */
    method Parameters() returns (ok: bool, count: nat)
      requires Valid() && View().snap.scope.Local?
      modifies parse, fstate
      ensures ok ==> Valid()
      ensures var v := old(View());
              var r := ParseParams(parse.toks, v.pos, true);
              && ok == r.Ok?
              && (ok ==> count == |r.tree| && View() == v.(pos := r.pos, snap := v.snap.WithNames(r.tree)))
    {
      hide ParseParams, Valid, Buffer.Valid, FunctionState.Valid, View, Snap.WithNames, Naming, NamesDone;
      ghost var v := View();
      ghost var r0 := ParseParams(parse.toks, v.pos, true);
      NamesBegin(parse.toks, v);
      var first := true;
      count := 0;
      SamePlace();
      while Peek() != RightParen
        invariant Valid() && Naming(parse.toks, v, r0, View(), first, count) && View().pos == parse.pos >= v.pos
        decreases |parse.toks| - parse.pos
      {
        var last;
        ok, last := NextParameter(first, v, r0, count);
        if !ok {
          return;
        }
        if last {
          ok := CloseNames(v, r0, count);
          return;
        }
        SamePlace();
        first := false;
        count := count + 1;
      }
      NamesEnd(parse.toks, v, r0, View(), first, count);
      ok := CloseNames(v, r0, count);
    }

    method CloseNames(ghost v: View, ghost r0: Parsed<seq<Name>>, ghost count: nat) returns (ok: bool)
      requires Valid() && NamesDone(parse.toks, v, r0, View(), count)
      modifies parse
      ensures Valid() && ok && r0.Ok? && count == |r0.tree| && v.snap.scope.Local?
      ensures View() == v.(pos := r0.pos, snap := v.snap.WithNames(r0.tree))
    {
      hide Valid, Buffer.Valid, FunctionState.Valid, View, Snap.WithNames;
      SamePlace();
      ok := Expect(RightParen);
    }

    /** The comma before a parameter, if it is not the first, and its name; a comma may end
        the list. */
    method NextParameter(first: bool, ghost v: View, ghost r0: Parsed<seq<Name>>, ghost count: nat) returns (ok: bool, last: bool)
      requires Valid() && Naming(parse.toks, v, r0, View(), first, count) && Peek() != RightParen
      modifies parse, fstate
      ensures !ok ==> !r0.Ok?
      ensures ok ==> Valid() && View().pos == parse.pos > old(parse.pos)
      ensures ok && last ==> NamesDone(parse.toks, v, r0, View(), count)
      ensures ok && !last ==> Naming(parse.toks, v, r0, View(), false, count + 1)
    {
      hide ParseParams, Valid, Buffer.Valid, FunctionState.Valid, View, Snap.WithNames, Naming;
      ghost var w := View();
      NamesAre(parse.toks, v, r0, w, first, count);
      SamePlace();
      ok, last := Separator(first);
      if !ok {
        return;
      }
      SamePlace();
      if last {
        return;
      }
      ok := OneParameter();
      if !ok {
        return;
      }
      SamePlace();
      NamesGoOn(parse.toks, v, r0, w, first, count, View());
    }

    lemma SamePlace()
      requires Valid()
      ensures View().pos == parse.pos && Peek() == Parser.Peek(parse.toks, parse.pos) == parse.Peek()
      ensures View() == ViewOf(parse.pos, Snapshot(), bytecode.labels, Tail(), loop, tryDepth)
    {
      hide Buffer.Valid, FunctionState.Valid;
    }

    method OneParameter() returns (ok: bool)
      requires Valid() && View().snap.scope.Local?
      modifies parse, fstate
      ensures Valid()
      ensures var v := old(View());
              var x := Parser.Peek(parse.toks, v.pos);
              ok == x.Ident? && (ok ==> View() == v.(pos := v.pos + 1, snap := v.snap.WithNames([x.x])))
    {
      hide Valid, Buffer.Valid, FunctionState.Valid, View, Snap.WithNames;
      PosIs();
      var x := Peek();
      ok := x.Ident?;
      if ok {
        Next();
        Bind(x.x);
      }
    }

    method Bind(x: Name)
      requires Valid() && View().snap.scope.Local?
      modifies fstate
      ensures Valid() && View() == old(View()).(snap := old(View()).snap.WithNames([x]))
    {
      hide Buffer.Valid;
      var slot := fstate.AddBinding(x);
    }

    /** Room for the locals, the statements, and a final `return null`. */
    method FunctionBody(count: nat, ghost params: seq<Name>) returns (ok: bool)
      requires Valid() && View().tail == [] && View().lp == None && View().tries == 0 && View().snap.scope == Local(params)
      requires View().snap == Snap(Emitted([Mark(0)], 1, []), View().snap.funs, Local(params), count, 0) && |View().labels| == 1
      requires count == |params| && fstate != null
      modifies this, parse, bytecode, fstate, unit
      ensures ok ==> Valid()
      ensures var v := old(View());
              var r := ParseBraces(parse.toks, v.pos, |v.snap.funs|);
              && ok == (r.Ok? && BlockWellPlaced(r.tree, true, false))
              && (ok ==> && View().pos == r.pos && View().snap.funs == v.snap.funs && View().tail == [] && fstate != null
                         && var d := FunDecl(0, params, r.tree);
                            View().snap == Snap(Emitted(GenFun(d), 1 + BlockLabels(r.tree), BlockConsts(r.tree)), v.snap.funs,
                                                AfterBlock(r.tree, Local(params)), BodySlots(d), BlockTries(r.tree)))
      decreases |parse.toks| - parse.pos, 5
    {
      hide Valid, Buffer.Valid, FunctionState.Valid, View, PlusBlock, ParseBlock, ParseBraces, BlockWellPlaced;
      hide GenFun, BodySlots, BlockTries, AfterBlock;
      ghost var v := View();
      ghost var r := ParseBraces(parse.toks, v.pos, |v.snap.funs|);
      BracesRead(parse.toks, v.pos, |v.snap.funs|);
      PosIs();
      var address;
      ok, address := BodyStart(params);
      if !ok {
        return;
      }
      PosIs();
      ok := BodyBlock();
      if !ok {
        return;
      }
      PlusBody(v.snap.funs, params, r.tree);
      SetLocals(address, count);
    }

    /** The opening brace, and an instruction that will make room for the locals. */
    method BodyStart(ghost params: seq<Name>) returns (ok: bool, address: nat)
      requires Valid() && fstate != null && |View().labels| == 1
      requires View().snap == Snap(Emitted([Mark(0)], 1, []), View().snap.funs, Local(params), |params|, 0)
      modifies parse, bytecode
      ensures Valid() && ok == (Parser.Peek(parse.toks, old(View()).pos) == LeftBrace)
      ensures ok ==> address == 0 &&
                     var v := old(View());
                     View() == v.(pos := v.pos + 1, snap := Snap(Emitted([Mark(0), Op(AllocateLocals, 0)], 1, []), v.snap.funs, Local(params), |params|, 0))
    {
      hide Valid, Buffer.Valid, FunctionState.Valid, View;
      address := 0;
      ok := Expect(LeftBrace);
      if ok {
        address := Here();
        MarkAtZero();
        Push(AllocateLocals, 0);
        assert [Mark(0)] + [Op(AllocateLocals, 0)] == [Mark(0), Op(AllocateLocals, 0)];
      }
    }

    /** The statements of a body up to its closing brace, and a final `return null`. */
    method BodyBlock() returns (ok: bool)
      requires Valid()
      modifies this, parse, bytecode, fstate, unit
      ensures ok ==> Valid()
      ensures var v := old(View());
              var r := ParseBlock(parse.toks, v.pos, |v.snap.funs|, RightBrace);
              && ok == (r.Ok? && BlockWellPlaced(r.tree, v.InFun(), v.lp.Some?))
              && (ok ==> View() == v.To(r.pos, Returning(PlusBlock(v.snap, r.tree, v.tries, v.lp)), View()))
      decreases |parse.toks| - parse.pos, 4
    {
      hide Valid, Buffer.Valid, FunctionState.Valid, View, PlusBlock, ParseBlock, BlockWellPlaced;
      PosIs();
      ok := CompileUntil(RightBrace);
      if !ok {
        return;
      }
      PosIs();
      BodyEnd();
    }

    /** The closing brace and the final `return null`. */
    method BodyEnd()
      requires Valid() && Peek() == RightBrace
      modifies parse, bytecode
      ensures Valid() && View() == old(View()).(pos := old(View()).pos + 1).Add(Op(ConstNull, 0)).Add(Op(Ret, 0))
    {
      hide Valid, Buffer.Valid, FunctionState.Valid, View;
      Next();
      Push(ConstNull, 0);
      Push(Ret, 0);
    }

    method Here() returns (address: nat)
      requires Valid()
      ensures address == Pos(View().snap.out.items, |View().snap.out.items|)
    {
      address := |bytecode.code|;
    }

    /** Overwrites the instruction that makes room for the locals, now that their number is
        known. */
    method SetLocals(address: nat, count: nat)
      requires Valid() && fstate != null
      requires |View().snap.out.items| > 1 && View().snap.out.items[1].Op? && address == Pos(View().snap.out.items, 1)
      requires count <= View().snap.slots
      modifies bytecode
      ensures Valid()
      ensures var v := old(View());
              var it := Op(AllocateLocals, v.snap.slots - count);
              View() == v.(snap := v.snap.(out := v.snap.out.(items := v.snap.out.items[1 := it])))
    {
      hide Buffer.Valid, FunctionState.Valid;
      bytecode.Update(address, AllocateLocals, fstate.numLocals - count, 1);
    }

    method Functions() returns (funs: seq<CompiledCode>)
      requires Valid()
      ensures funs == View().snap.funs
    {
      funs := unit.funs;
    }

    lemma RootView()
      requires Valid() && fstate == null && loop == None && tryDepth == 0
      requires Snapshot() == Snap(Emitted([], 0, []), [], Global, 0, 0)
      ensures View() == ViewOf(parse.pos, Snap(Emitted([], 0, []), [], Global, 0, 0), [], [], None, 0)
    {
    }

    /** `create_code`: the stack size is the highest point of a straight run through the
        words, starting above the locals of the outermost scope. */
    method CreateCode(name: Name, arity: nat) returns (ok: bool, code: CompiledCode)
      requires Valid() && View().tail == []
      ensures var n := View().snap;
              && ok == AllMarked(n.out.items)
              && (ok ==> code == Finished(n.out.items, n.out.consts, name, arity, n.scope.Size(), n.maxTries))
    {
      hide FunctionState.Valid, Buffer.Valid, LineMax, Assemble, EncodeAll;
      var start := RootLocals();
      var stackSize := LineSize(start);
      var words: seq<nat>;
      ok, words := bytecode.Finalize();
      if ok {
        AllEncoded(bytecode.items, words);
      }
      code := CompiledCode(words, consts, name, arity, stackSize, maxTryDepth);
    }

    method LineSize(start: nat) returns (stackSize: int)
      ensures stackSize == LineMax(bytecode.code, start, |bytecode.code|)
    {
      var current: int := start;
      stackSize := start;
      var i := 0;
      while i < |bytecode.code|
        invariant i <= |bytecode.code|
        invariant current == LineHeight(bytecode.code, start, i) && stackSize == LineMax(bytecode.code, start, i)
      {
        current := current + WordEffect(bytecode.code[i]);
        if current > stackSize {
          stackSize := current;
        }
        i := i + 1;
      }
    }

    method RootLocals() returns (n: nat)
      requires Valid() && View().tail == []
      ensures n == View().snap.scope.Size()
    {
      n := if fstate == null then 0 else fstate.levels[0].numLocals;
    }

    method CreateFunctionCode(name: Name, arity: nat, ghost d: FunDecl) returns (code: CompiledCode)
      requires Valid() && View().tail == [] && name == d.name && arity == |d.params|
      requires var n := View().snap;
               && n.out == Emitted(GenFun(d), 1 + BlockLabels(d.body), BlockConsts(d.body))
               && n.scope == AfterBlock(d.body, Local(d.params)) && n.maxTries == BlockTries(d.body)
      ensures code == CodeForFun(d)
    {
      hide Valid, Buffer.Valid, FunctionState.Valid, View, GenFun;
      RefsFit();
      FunAllMarked(d);
      var ok;
      ok, code := CreateCode(name, arity);
    }

    lemma RefsFit()
      requires Valid()
      ensures RefsBelow(View().snap.out.items, View().snap.out.labels)
    {
    }
  }

  lemma AllEncoded(items: seq<Item>, words: seq<nat>)
    requires |words| == |Assemble(items)| && forall i :: 0 <= i < |words| ==> words[i] == Encode(Assemble(items)[i])
    ensures words == EncodeAll(Assemble(items))
  {
    hide Assemble, Encode;
  }

  predicate AllMarked(items: seq<Item>) {
    forall i :: 0 <= i < |items| && Target(items[i]).Some? ==> Mark(Target(items[i]).value) in items
  }

  predicate RefsBelow(items: seq<Item>, n: nat) {
    forall i :: 0 <= i < |items| && Target(items[i]).Some? ==> Target(items[i]).value < n
  }

  lemma FunAllMarked(d: FunDecl)
    requires RefsBelow(GenFun(d), 1 + BlockLabels(d.body))
    ensures AllMarked(GenFun(d))
  {
    hide GenFun, Count, BlockLabels;
    var items := GenFun(d);
    forall i | 0 <= i < |items| && Target(items[i]).Some?
      ensures Mark(Target(items[i]).value) in items
    {
      FunMarks(d, Target(items[i]).value);
      MarkedIfCounted(items, Target(items[i]).value);
    }
  }

  lemma ModuleAllMarked(body: List<Stmt>)
    requires RefsBelow(GenModule(body), BlockLabels(body))
    ensures AllMarked(GenModule(body))
  {
    hide GenModule, Count, BlockLabels;
    var items := GenModule(body);
    forall i | 0 <= i < |items| && Target(items[i]).Some?
      ensures Mark(Target(items[i]).value) in items
    {
      ModuleMarks(body, Target(items[i]).value);
      MarkedIfCounted(items, Target(items[i]).value);
    }
  }

  lemma PlusModule(body: List<Stmt>)
    ensures var n := PlusBlock(Snap(Emitted([], 0, []), [], Global, 0, 0), body, 0, None);
            && n == Snap(n.out, Codes(BlockFuns(body)), n.scope, n.slots, BlockTries(body))
            && n.scope.Size() == 0
            && n.out == Emitted(n.out.items, BlockLabels(body), BlockConsts(body))
            && n.out.items + [Op(Halt, 0)] == GenModule(body)
  {
    hide GenBlock, BlockLabels, BlockConsts, PeakBlock, AfterBlock, BlockTries, BlockFuns, Codes;
    BlockKind(body, Global);
    assert [] + Codes(BlockFuns(body)) == Codes(BlockFuns(body));
    assert [] + BlockConsts(body) == BlockConsts(body);
    assert [] + GenBlock(body, Global, None, 0, 0) == GenBlock(body, Global, None, 0, 0);
  }

  lemma PlusFun(n: Snap, d: FunDecl, tries: nat, lp: Option<Loop>)
    requires n.scope.Global? && n.maxTries >= tries
    ensures var n1 := n.(out := Emit(NewConst(n.out, FunConst(|n.funs|)), Op(LoadConst, |n.out.consts|)), funs := n.funs + [CodeForFun(d)]);
            PlusStmt(n, Fun(|n.funs|, d), tries, lp) == n1.(out := WithDeclare(n1.out, d.name, n1.scope))
  {
    hide WithStmt, WithDeclare, CodeForFun;
    FunEmits(n.out, |n.funs|, d, n.scope, lp);
    assert Codes([d]) == [CodeForFun(d)];
  }

  lemma SameCode(x: Name, y: Name, params: seq<Name>, body: List<Stmt>)
    ensures GenFun(FunDecl(x, params, body)) == GenFun(FunDecl(y, params, body))
  {
  }

  /** Where the parameters are being read. */
  ghost predicate Naming(toks: seq<Token>, v: View, r0: Parsed<seq<Name>>, w: View, first: bool, count: nat) {
    var r := ParseParams(toks, w.pos, first);
    && v.snap.scope.Local? && w.snap.scope.Local? && w == v.(pos := w.pos, snap := w.snap) && w.pos >= v.pos
    && r.Ok? == r0.Ok?
    && (r.Ok? ==> r.pos == r0.pos && count + |r.tree| == |r0.tree| && w.snap.WithNames(r.tree) == v.snap.WithNames(r0.tree))
  }

  /** Only the closing parenthesis is missing. */
  ghost predicate NamesDone(toks: seq<Token>, v: View, r0: Parsed<seq<Name>>, w: View, count: nat) {
    && r0.Ok? && r0.pos == w.pos + 1 && count == |r0.tree| && Parser.Peek(toks, w.pos) == RightParen
    && v.snap.scope.Local? && w == v.(pos := w.pos, snap := v.snap.WithNames(r0.tree))
  }

  lemma NamesEnd(toks: seq<Token>, v: View, r0: Parsed<seq<Name>>, w: View, first: bool, count: nat)
    requires Naming(toks, v, r0, w, first, count) && w.snap.slots >= w.snap.scope.Size() && Parser.Peek(toks, w.pos) == RightParen
    ensures NamesDone(toks, v, r0, w, count)
  {
    hide Naming, Snap.WithNames;
    NamesAre(toks, v, r0, w, first, count);
  }

  lemma NamesBegin(toks: seq<Token>, v: View)
    requires v.snap.scope.Local?
    ensures Naming(toks, v, ParseParams(toks, v.pos, true), v, true, 0)
  {
    hide ParseParams;
  }

  /** What comes next decides whether the list can be read. */
  lemma NamesAre(toks: seq<Token>, v: View, r0: Parsed<seq<Name>>, w: View, first: bool, count: nat)
    requires Naming(toks, v, r0, w, first, count) && w.snap.slots >= w.snap.scope.Size()
    ensures v.snap.scope.Local? && w.snap.scope.Local? && w.pos >= v.pos
    ensures var p := if first then w.pos else w.pos + 1;
            if Parser.Peek(toks, w.pos) == RightParen then
              r0.Ok? && r0.pos == w.pos + 1 && count == |r0.tree| && w == v.(pos := w.pos, snap := v.snap.WithNames(r0.tree))
            else if !first && Parser.Peek(toks, w.pos) != Comma then !r0.Ok?
            else if !first && Parser.Peek(toks, p) == RightParen then
              r0.Ok? && r0.pos == p + 1 && count == |r0.tree| && w == v.(pos := w.pos, snap := v.snap.WithNames(r0.tree))
            else !Parser.Peek(toks, p).Ident? ==> !r0.Ok?
  {
    hide ParseParams, Snap.WithNames;
    ParamsRead(toks, w.pos, first);
    NoNames(w.snap);
  }

  lemma NamesGoOn(toks: seq<Token>, v: View, r0: Parsed<seq<Name>>, w: View, first: bool, count: nat, w1: View)
    requires Naming(toks, v, r0, w, first, count) && Parser.Peek(toks, w.pos) != RightParen
    requires var p := if first then w.pos else w.pos + 1;
             var x := Parser.Peek(toks, p);
             && (!first ==> Parser.Peek(toks, w.pos) == Comma && Parser.Peek(toks, p) != RightParen)
             && x.Ident? && w1 == w.(pos := p + 1, snap := w.snap.WithNames([x.x]))
    ensures Naming(toks, v, r0, w1, false, count + 1)
  {
    hide ParseParams, Snap.WithNames;
    ParamsRead(toks, w.pos, first);
    var p := if first then w.pos else w.pos + 1;
    var r := ParseParams(toks, w1.pos, false);
    MoreNames(w.snap, Parser.Peek(toks, p).x, if r.Ok? then r.tree else []);
  }

  lemma NoNames(n: Snap)
    requires n.scope.Local? && n.slots >= n.scope.Size()
    ensures n.WithNames([]) == n
  {
    assert n.scope.names + [] == n.scope.names;
  }

  lemma MoreNames(n: Snap, x: Name, xs: seq<Name>)
    requires n.scope.Local?
    ensures n.WithNames([x]).scope.Local? && n.WithNames([x]).WithNames(xs) == n.WithNames([x] + xs)
  {
    assert n.scope.names + [x] + xs == n.scope.names + ([x] + xs);
  }

  lemma CodeName(d: FunDecl)
    ensures CodeForFun(d).name == d.name
  {
  }

  lemma MarkAtZero()
    ensures Pos([Mark(0)], 1) == 0
  {
  }

  /** With a final `return null`. */
  ghost function Returning(n: Snap): Snap {
    n.(out := n.out.(items := n.out.items + [Op(ConstNull, 0)] + [Op(Ret, 0)]))
  }

  /** The body of a function, from the label that ends its parameters on. */
  lemma PlusBody(funs: seq<CompiledCode>, params: seq<Name>, body: List<Stmt>)
    requires BlockWellPlaced(body, true, false)
    ensures var d := FunDecl(0, params, body);
            var n := PlusBlock(Snap(Emitted([Mark(0), Op(AllocateLocals, 0)], 1, []), funs, Local(params), |params|, 0), body, 0, None);
            && n == Snap(n.out, funs, AfterBlock(body, Local(params)), BodySlots(d), BlockTries(body))
            && n.out == Emitted(n.out.items, 1 + BlockLabels(body), BlockConsts(body))
            && (var items := n.out.items + [Op(ConstNull, 0)] + [Op(Ret, 0)];
                |items| > 1 && items[1] == Op(AllocateLocals, 0) && Pos(items, 1) == 0)
            && (n.out.items + [Op(ConstNull, 0)] + [Op(Ret, 0)])[1 := Op(AllocateLocals, BodySlots(d) - |params|)] == GenFun(d)
  {
    hide GenBlock, BlockLabels, BlockConsts, PeakBlock, AfterBlock, BlockTries, BlockWellPlaced;
    NoInnerFuns(body, false);
    assert funs + Codes([]) == funs;
    assert [] + BlockConsts(body) == BlockConsts(body);
    var d := FunDecl(0, params, body);
    var g := GenBlock(body, Local(params), None, 1, 0);
    var items := [Mark(0), Op(AllocateLocals, 0)] + g + [Op(ConstNull, 0)] + [Op(Ret, 0)];
    assert items[0] == Mark(0) && Pos(items, 0) == 0;
    assert ([Mark(0), Op(AllocateLocals, 0)] + g + [Op(ConstNull, 0)] + [Op(Ret, 0)])[1 := Op(AllocateLocals, BodySlots(d) - |params|)]
        == [Mark(0), Op(AllocateLocals, BodySlots(d) - |params|)] + g + [Op(ConstNull, 0), Op(Ret, 0)];
  }

  lemma {:induction false} NoInnerFuns(ss: List<Stmt>, inLoop: bool)
    requires BlockWellPlaced(ss, true, inLoop)
    ensures BlockFuns(ss) == []
    decreases ss, 0
  {
    match ss
    case Nil =>
    case Cons(s, rest) =>
      NoFunsIn(s, inLoop);
      NoInnerFuns(rest, inLoop);
  }

  lemma {:induction false} NoFunsIn(s: Stmt, inLoop: bool)
    requires WellPlaced(s, true, inLoop)
    ensures StmtFuns(s) == []
    decreases s, 0
  {
    match s
    case If(_, t, els) =>
      NoInnerFuns(t, inLoop);
      NoElseFuns(els, inLoop);
    case While(_, body) => NoInnerFuns(body, true);
    case For(init, _, _, body) =>
      if init.Some? {
        NoFunsIn(init.value, inLoop);
      }
      NoInnerFuns(body, true);
    case Try(body, _, handler) =>
      NoInnerFuns(body, inLoop);
      NoInnerFuns(handler, inLoop);
    case _ =>
  }

  lemma {:induction false} NoElseFuns(els: Else, inLoop: bool)
    requires ElseWellPlaced(els, true, inLoop)
    ensures ElseFuns(els) == []
    decreases els, 0
  {
    match els
    case NoElse =>
    case ElseIf(s) => NoFunsIn(s, inLoop);
    case ElseBlock(body) => NoInnerFuns(body, inLoop);
  }

  /** A whole module.  It is accepted exactly when it is a sequence of well-placed
      statements; then the code is that of the tree, and so is the code of its
      functions. */
  method CompileModule(toks: seq<Token>) returns (ok: bool, main: CompiledCode, funs: seq<CompiledCode>)
    ensures var r := ParseModule(toks);
            && ok == (r.Ok? && BlockWellPlaced(r.tree, false, false))
            && (ok ==> main == CodeForModule(r.tree) && funs == Codes(BlockFuns(r.tree)))
  {
    hide CState.Valid, CState.View, Buffer.Valid, FunctionState.Valid, PlusBlock, Finished, GenModule, BlockWellPlaced, ParseBlock, Codes;
    main, funs := CompiledCode([], [], 0, 0, 0, 0), [];
    var st := new CState.Root(toks);
    st.RootView();
    ghost var v := st.View();
    ok := st.CompileUntil(Eof);
    if !ok {
      return;
    }
    main, funs := EndModule(st, ParseModule(toks).tree);
  }

  /** `HALT`, and the code of the module when all its statements have been compiled. */
  method EndModule(st: CState, ghost body: List<Stmt>) returns (main: CompiledCode, funs: seq<CompiledCode>)
    requires st.Valid() && st.View().tail == []
    requires st.View().snap == PlusBlock(Snap(Emitted([], 0, []), [], Global, 0, 0), body, 0, None)
    modifies st.bytecode
    ensures main == CodeForModule(body) && funs == Codes(BlockFuns(body))
  {
    hide CState.Valid, CState.View, Buffer.Valid, FunctionState.Valid, PlusBlock, Finished, GenModule, Codes;
    st.Push(Halt, 0);
    PlusModule(body);
    st.RefsFit();
    ModuleAllMarked(body);
    var ok;
    ok, main := st.CreateCode(0, 0);
    funs := st.Functions();
  }

  lemma BlockPlaced(s: Stmt, rest: List<Stmt>, inFun: bool, inLoop: bool)
    ensures BlockWellPlaced(Cons(s, rest), inFun, inLoop) == (WellPlaced(s, inFun, inLoop) && BlockWellPlaced(rest, inFun, inLoop))
  {
    hide WellPlaced;
  }

  lemma NonePlaced(inFun: bool, inLoop: bool)
    ensures BlockWellPlaced(Nil, inFun, inLoop)
  {
  }

  lemma BlockFunsGrow(n: Snap, ss: List<Stmt>, tries: nat, lp: Option<Loop>)
    ensures |PlusBlock(n, ss, tries, lp).funs| == |n.funs| + |BlockFuns(ss)|
  {
  }

  lemma InitFunsGrow(n: Snap, init: Option<Stmt>, tries: nat, lp: Option<Loop>)
    ensures |PlusInit(n, init, tries, lp).funs| == |n.funs| + |InitFuns(init)|
  {
  }

  lemma FunsGrow(n: Snap, s: Stmt, tries: nat, lp: Option<Loop>)
    ensures |PlusStmt(n, s, tries, lp).funs| == |n.funs| + |StmtFuns(s)|
  {
  }
}
