/** The expression grammar is the precedence grammar: printing a tree with parentheses
    only where the binding powers ask for them, and reading it back, gives the tree. */
module Pratt {
  import opened Syntax
  import opened Parser

  function LiteralTok(lit: Literal): Token {
    match lit
    case IntLit(n) => IntTok(n)
    case StrLit(id) => StrTok(id)
    case NullLit => NullTok
    case TrueLit => TrueTok
    case FalseLit => FalseTok
  }

  function UnaryTok(op: UnOp): Token {
    match op
    case Neg => BinTok(Sub)
    case Not => Bang
    case BitNot => Tilde
  }

  function LogicTok(isAnd: bool): Token { if isAnd then AndAnd else OrOr }

  /** Trees that have a notation: compound assignment exists for nine operators. */
  predicate Printable(e: Expr) {
    match e
    case Const(_) => true
    case Var(_) => true
    case Bump(_, _) => true
    case Assign(_, e1) => Printable(e1)
    case OpAssign(_, op, e1) => CompoundOp(OpEqual(op)).Some? && Printable(e1)
    case Unary(_, e1) => Printable(e1)
    case Binary(_, l, r) => Printable(l) && Printable(r)
    case Logic(_, l, r) => Printable(l) && Printable(r)
    case Call(f, args) => Printable(f) && AllPrintable(args)
  }

  predicate AllPrintable(es: List<Expr>) {
    match es
    case Nil => true
    case Cons(e, rest) => Printable(e) && AllPrintable(rest)
  }

  /** Whether a tree must be parenthesised where operands are read with power `rbp`. */
  predicate NeedsParens(e: Expr, rbp: nat) {
    match e
    case Binary(op, _, _) => BinPower(op) <= rbp
    case Logic(isAnd, _, _) => LogicPower(isAnd) <= rbp
    case _ => false
  }

  /** The loosest infix operator that the end of a bare tree would swallow: operators with
      a power above this one continue its last operand, or the last operand of that. */
  function Edge(e: Expr): (edge: nat)
    decreases e, 0
  {
    match e
    case Assign(_, _) => 0
    case OpAssign(_, _, _) => 0
    case Unary(_, e1) => Min(UNARY_POWER, OperandEdge(e1, UNARY_POWER))
    case Binary(op, _, r) => Min(RightPower(op), OperandEdge(r, RightPower(op)))
    case Logic(isAnd, _, r) => Min(LogicPower(isAnd), OperandEdge(r, LogicPower(isAnd)))
    case _ => 13
  }

  /** The same for an operand read with power `rbp`: nothing goes into parentheses. */
  function OperandEdge(e: Expr, rbp: nat): (edge: nat)
    decreases e, 1
  {
    if NeedsParens(e, rbp) then 13 else Edge(e)
  }

  function Min(a: nat, b: nat): nat { if a <= b then a else b }

  function Parens(toks: seq<Token>): seq<Token> { [LeftParen] + toks + [RightParen] }

  function Bare(e: Expr): seq<Token>
    decreases e, 0
  {
    match e
    case Const(lit) => [LiteralTok(lit)]
    case Var(x) => [Ident(x)]
    case Assign(x, e1) => [Ident(x), Equal] + Bare(e1)
    case OpAssign(x, op, e1) => [Ident(x), OpEqual(op)] + Bare(e1)
    case Bump(x, up) => [Ident(x), if up then PlusPlus else MinusMinus]
    case Unary(op, e1) => [UnaryTok(op)] + Operand(e1, UNARY_POWER)
    case Binary(op, l, r) => LeftOperand(l, BinPower(op)) + [BinTok(op)] + Operand(r, RightPower(op))
    case Logic(isAnd, l, r) =>
      LeftOperand(l, LogicPower(isAnd)) + [LogicTok(isAnd)] + Operand(r, LogicPower(isAnd))
    case Call(f, args) => LeftOperand(f, 13) + [LeftParen] + ArgToks(args, true)
  }

  /** A tree where operands are read with power `rbp`. */
  function Operand(e: Expr, rbp: nat): seq<Token>
    decreases e, 1
  {
    if NeedsParens(e, rbp) then Parens(Bare(e)) else Bare(e)
  }

  /** A tree on the left of an infix operator of this power. */
  function LeftOperand(e: Expr, power: nat): seq<Token>
    decreases e, 1
  {
    if Edge(e) < power then Parens(Bare(e)) else Bare(e)
  }

  function ArgToks(es: List<Expr>, first: bool): seq<Token>
    decreases es, 0
  {
    match es
    case Nil => [RightParen]
    case Cons(e, rest) => (if first then [] else [Comma]) + Operand(e, 0) + ArgToks(rest, false)
  }

  /** `part` stands at `pos`. */
  ghost predicate Reads(toks: seq<Token>, pos: nat, part: seq<Token>) {
    pos + |part| <= |toks| && toks[pos..pos + |part|] == part
  }

  lemma ReadsSplit(toks: seq<Token>, pos: nat, a: seq<Token>, b: seq<Token>)
    requires Reads(toks, pos, a + b)
    ensures Reads(toks, pos, a) && Reads(toks, pos + |a|, b)
  {
    var s := toks[pos..pos + |a + b|];
    assert s[..|a|] == a && s[|a|..] == b;
    assert toks[pos..pos + |a|] == s[..|a|];
    assert toks[pos + |a|..pos + |a| + |b|] == s[|a|..];
  }

  lemma ReadsOne(toks: seq<Token>, pos: nat, part: seq<Token>, i: nat)
    requires Reads(toks, pos, part) && i < |part|
    ensures Peek(toks, pos + i) == part[i]
  {
    assert toks[pos..pos + |part|][i] == toks[pos + i];
  }

  /** Tokens that turn a name into an assignment. */
  predicate AssignLike(t: Token) { t == Equal || t.OpEqual? || t == PlusPlus || t == MinusMinus }

  /** What may follow a tree so that nothing more is read into it. */
  predicate Stops(t: Token, power: int) { Lbp(t) <= power && !AssignLike(t) }

  /** A tree starts with a name, a literal, a parenthesis or a prefix operator. */
  lemma {:induction false} StartOfTree(e: Expr)
    ensures |Bare(e)| > 0
    ensures var t := Bare(e)[0]; t.Ident? || LiteralOf(t).Some? || t == LeftParen || UnaryOf(t).Some?
    decreases e
  {
    match e
    case Binary(op, l, r) => StartOfTree(l);
    case Logic(isAnd, l, r) => StartOfTree(l);
    case Call(f, args) => StartOfTree(f);
    case _ =>
  }

  // ----- one step of the reader -----

  lemma InnerIs(toks: seq<Token>, pos: nat, rbp: nat, e: Expr, p: nat)
    requires p <= |toks| && ParseNud(toks, pos) == Ok(e, p)
    ensures ParseInner(toks, pos, rbp) == ParseLoop(toks, p, rbp, e)
  {
  }

  lemma LoopIs(toks: seq<Token>, pos: nat, rbp: nat, left: Expr, e: Expr, p: nat)
    requires pos <= |toks| && p <= |toks| && rbp < Lbp(Peek(toks, pos)) && ParseLed(toks, pos, left) == Ok(e, p)
    ensures ParseLoop(toks, pos, rbp, left) == ParseLoop(toks, p, rbp, e)
  {
  }

  lemma LoopStops(toks: seq<Token>, pos: nat, rbp: nat, e: Expr)
    requires pos <= |toks| && Lbp(Peek(toks, pos)) <= rbp
    ensures ParseLoop(toks, pos, rbp, e) == Ok(e, pos)
  {
  }

  lemma LoopEnds(toks: seq<Token>, pos: nat, e: Expr)
    requires pos <= |toks| && Stops(Peek(toks, pos), 0)
    ensures ParseLoop(toks, pos, 0, e) == Ok(e, pos)
  {
    LoopStops(toks, pos, 0, e);
  }

  lemma LedBinary(toks: seq<Token>, pos: nat, left: Expr, op: BinOp, e: Expr, p: nat)
    requires Peek(toks, pos) == BinTok(op) && ParseInner(toks, pos + 1, RightPower(op)) == Ok(e, p)
    ensures ParseLed(toks, pos, left) == Ok(Binary(op, left, e), p)
  {
    hide ParseInner;
  }

  lemma LedLogic(toks: seq<Token>, pos: nat, left: Expr, isAnd: bool, e: Expr, p: nat)
    requires Peek(toks, pos) == LogicTok(isAnd) && ParseInner(toks, pos + 1, LogicPower(isAnd)) == Ok(e, p)
    ensures ParseLed(toks, pos, left) == Ok(Logic(isAnd, left, e), p)
  {
    hide ParseInner;
  }

  lemma LedCall(toks: seq<Token>, pos: nat, left: Expr, args: List<Expr>, p: nat)
    requires Peek(toks, pos) == LeftParen && ParseArgs(toks, pos + 1, true) == Ok(args, p)
    ensures ParseLed(toks, pos, left) == Ok(Call(left, args), p)
  {
    hide ParseInner, ParseArgs;
  }

  lemma NudParens(toks: seq<Token>, pos: nat, e: Expr, p: nat)
    requires Peek(toks, pos) == LeftParen && ParseInner(toks, pos + 1, 0) == Ok(e, p) && Peek(toks, p) == RightParen
    ensures ParseNud(toks, pos) == Ok(e, p + 1)
  {
    hide ParseInner;
    ExprIsInner(toks, pos + 1);
  }

  lemma NudUnary(toks: seq<Token>, pos: nat, op: UnOp, e: Expr, p: nat)
    requires Peek(toks, pos) == UnaryTok(op) && ParseInner(toks, pos + 1, UNARY_POWER) == Ok(e, p)
    ensures ParseNud(toks, pos) == Ok(Unary(op, e), p)
  {
    hide ParseInner;
  }

  lemma NudConst(toks: seq<Token>, pos: nat, lit: Literal)
    requires Peek(toks, pos) == LiteralTok(lit)
    ensures ParseNud(toks, pos) == Ok(Const(lit), pos + 1)
  {
    hide ParseExpr, ParseInner;
  }

  lemma NudName(toks: seq<Token>, pos: nat, x: Name)
    requires Peek(toks, pos) == Ident(x) && pos < |toks|
    ensures !AssignLike(Peek(toks, pos + 1)) ==> ParseNud(toks, pos) == Ok(Var(x), pos + 1)
    ensures Peek(toks, pos + 1) == PlusPlus ==> ParseNud(toks, pos) == Ok(Bump(x, true), pos + 2)
    ensures Peek(toks, pos + 1) == MinusMinus ==> ParseNud(toks, pos) == Ok(Bump(x, false), pos + 2)
  {
    hide ParseExpr;
  }

  lemma NudAssign(toks: seq<Token>, pos: nat, x: Name, t: Token, e: Expr, p: nat)
    requires Peek(toks, pos) == Ident(x) && pos < |toks| && Peek(toks, pos + 1) == t
    requires t == Equal || CompoundOp(t).Some?
    requires ParseInner(toks, pos + 2, 0) == Ok(e, p)
    ensures ParseNud(toks, pos) == Ok(if t == Equal then Assign(x, e) else OpAssign(x, t.op, e), p)
  {
    hide ParseInner, ParseExpr;
    ExprIsInner(toks, pos + 2);
  }

  // ----- the reader on printed trees -----

  /** A bare tree is read as itself, and the reader goes on after it. */
  lemma {:induction false} BareRead(e: Expr, toks: seq<Token>, pos: nat, rbp: nat)
    requires Printable(e) && Reads(toks, pos, Bare(e)) && !NeedsParens(e, rbp) && rbp <= UNARY_POWER
    requires Stops(Peek(toks, pos + |Bare(e)|), Edge(e))
    ensures ParseInner(toks, pos, rbp) == ParseLoop(toks, pos + |Bare(e)|, rbp, e)
    decreases e, 0
  {
    hide ParseInner, ParseLoop, ParseNud, ParseExpr, Operand, LeftOperand, ArgToks, Reads;
    match e
    case Const(lit) =>
      ReadsOne(toks, pos, Bare(e), 0);
      NudConst(toks, pos, lit);
      InnerIs(toks, pos, rbp, e, pos + 1);
    case Var(x) =>
      ReadsOne(toks, pos, Bare(e), 0);
      NudName(toks, pos, x);
      InnerIs(toks, pos, rbp, e, pos + 1);
    case Bump(x, up) =>
      ReadsOne(toks, pos, Bare(e), 0);
      ReadsOne(toks, pos, Bare(e), 1);
      NudName(toks, pos, x);
      InnerIs(toks, pos, rbp, e, pos + 2);
    case Assign(x, e1) => AssignRead(x, Equal, e1, toks, pos, rbp);
    case OpAssign(x, op, e1) => AssignRead(x, OpEqual(op), e1, toks, pos, rbp);
    case Unary(op, e1) => UnaryRead(op, e1, toks, pos, rbp);
    case Binary(op, l, r) => InfixRead(e, l, r, BinTok(op), BinPower(op), RightPower(op), toks, pos, rbp);
    case Logic(isAnd, l, r) => InfixRead(e, l, r, LogicTok(isAnd), LogicPower(isAnd), LogicPower(isAnd), toks, pos, rbp);
    case Call(f, args) => CallRead(f, args, toks, pos, rbp);
  }

  lemma {:induction false} UnaryRead(op: UnOp, e1: Expr, toks: seq<Token>, pos: nat, rbp: nat)
    requires Printable(e1) && Reads(toks, pos, [UnaryTok(op)] + Operand(e1, UNARY_POWER))
    requires Stops(Peek(toks, pos + 1 + |Operand(e1, UNARY_POWER)|), Min(UNARY_POWER, OperandEdge(e1, UNARY_POWER)))
    ensures ParseInner(toks, pos, rbp) == ParseLoop(toks, pos + 1 + |Operand(e1, UNARY_POWER)|, rbp, Unary(op, e1))
    decreases e1, 3
  {
    hide ParseInner, ParseLoop, ParseNud, Operand, OperandEdge;
    var end := pos + 1 + |Operand(e1, UNARY_POWER)|;
    ReadsSplit(toks, pos, [UnaryTok(op)], Operand(e1, UNARY_POWER));
    ReadsOne(toks, pos, [UnaryTok(op)], 0);
    OperandRead(e1, toks, pos + 1, UNARY_POWER);
    NudUnary(toks, pos, op, e1, end);
    InnerIs(toks, pos, rbp, Unary(op, e1), end);
  }

  lemma {:induction false} AssignRead(x: Name, t: Token, e1: Expr, toks: seq<Token>, pos: nat, rbp: nat)
    requires Printable(e1) && Reads(toks, pos, [Ident(x), t] + Bare(e1)) && (t == Equal || CompoundOp(t).Some?)
    requires Stops(Peek(toks, pos + 2 + |Bare(e1)|), 0)
    ensures ParseInner(toks, pos, rbp)
         == ParseLoop(toks, pos + 2 + |Bare(e1)|, rbp, if t == Equal then Assign(x, e1) else OpAssign(x, t.op, e1))
    decreases e1, 2
  {
    hide Bare, ParseInner, ParseLoop, ParseNud;
    var end := pos + 2 + |Bare(e1)|;
    ReadsSplit(toks, pos, [Ident(x), t], Bare(e1));
    ReadsOne(toks, pos, [Ident(x), t], 0);
    ReadsOne(toks, pos, [Ident(x), t], 1);
    BareRead(e1, toks, pos + 2, 0);
    LoopStops(toks, end, 0, e1);
    NudAssign(toks, pos, x, t, e1, end);
    InnerIs(toks, pos, rbp, if t == Equal then Assign(x, e1) else OpAssign(x, t.op, e1), end);
  }

  /** The token, the two powers and the operands of an infix tree. */
  ghost predicate Infix(e: Expr, l: Expr, r: Expr, t: Token, power: nat, right: nat) {
    match e
    case Binary(op, a, b) => a == l && b == r && t == BinTok(op) && power == BinPower(op) && right == RightPower(op)
    case Logic(isAnd, a, b) => a == l && b == r && t == LogicTok(isAnd) && power == right == LogicPower(isAnd)
    case _ => false
  }

  lemma BareInfix(e: Expr, l: Expr, r: Expr, t: Token, power: nat, right: nat)
    requires Infix(e, l, r, t, power, right)
    ensures Bare(e) == LeftOperand(l, power) + [t] + Operand(r, right)
    ensures Lbp(t) == power && !AssignLike(t) && right <= UNARY_POWER && right <= power
    ensures Edge(e) == Min(right, OperandEdge(r, right))
    ensures l < e && r < e
  {
  }

  lemma {:induction false} InfixRead(e: Expr, l: Expr, r: Expr, t: Token, power: nat, right: nat,
                                     toks: seq<Token>, pos: nat, rbp: nat)
    requires Infix(e, l, r, t, power, right) && Printable(l) && Printable(r) && power > rbp && rbp <= UNARY_POWER
    requires Reads(toks, pos, Bare(e)) && Stops(Peek(toks, pos + |Bare(e)|), Edge(e))
    ensures ParseInner(toks, pos, rbp) == ParseLoop(toks, pos + |Bare(e)|, rbp, e)
    decreases e, 0, 0
  {
    hide Bare, ParseInner, ParseLoop, ParseNud, ParseLed, LeftOperand, Operand, Edge, OperandEdge, Printable, Reads, NeedsParens, AssignLike;
    var left, rest := LeftOperand(l, power), Operand(r, right);
    BareInfix(e, l, r, t, power, right);
    ReadsSplit(toks, pos, left + [t], rest);
    ReadsSplit(toks, pos, left, [t]);
    var mid := pos + |left|;
    var end := mid + 1 + |rest|;
    ReadsOne(toks, mid, [t], 0);
    LeftRead(l, toks, pos, power, rbp);
    OperandRead(r, toks, mid + 1, right);
    if e.Binary? {
      LedBinary(toks, mid, l, e.op, r, end);
    } else {
      LedLogic(toks, mid, l, e.isAnd, r, end);
    }
    LoopIs(toks, mid, rbp, l, e, end);
  }

  lemma {:induction false} CallRead(f: Expr, args: List<Expr>, toks: seq<Token>, pos: nat, rbp: nat)
    requires Printable(f) && AllPrintable(args) && Reads(toks, pos, Bare(Call(f, args))) && rbp <= UNARY_POWER
    ensures ParseInner(toks, pos, rbp) == ParseLoop(toks, pos + |Bare(Call(f, args))|, rbp, Call(f, args))
    decreases Call(f, args), 0, 0
  {
    hide Bare, ParseInner, ParseLoop, ParseNud, ParseLed, LeftOperand, ParseArgs, ArgToks, AllPrintable, Printable, Reads, Edge, NeedsParens;
    var left, rest := LeftOperand(f, 13), ArgToks(args, true);
    var mid := pos + |left|;
    var end := mid + 1 + |rest|;
    CallPieces(f, args, toks, pos);
    LeftRead(f, toks, pos, 13, rbp);
    ArgsRead(args, toks, mid + 1, true);
    LedCall(toks, mid, f, args, end);
    LoopIs(toks, mid, rbp, f, Call(f, args), end);
  }

  lemma CallPieces(f: Expr, args: List<Expr>, toks: seq<Token>, pos: nat)
    requires Reads(toks, pos, Bare(Call(f, args)))
    ensures var left, rest := LeftOperand(f, 13), ArgToks(args, true);
            && |Bare(Call(f, args))| == |left| + 1 + |rest| && pos + |left| + 1 + |rest| <= |toks|
            && Reads(toks, pos, left) && Peek(toks, pos + |left|) == LeftParen && Reads(toks, pos + |left| + 1, rest)
  {
    hide Bare, LeftOperand, ArgToks;
    var left, rest := LeftOperand(f, 13), ArgToks(args, true);
    BareCall(f, args);
    ReadsSplit(toks, pos, left + [LeftParen], rest);
    ReadsSplit(toks, pos, left, [LeftParen]);
    ReadsOne(toks, pos + |left|, [LeftParen], 0);
  }

  lemma BareCall(f: Expr, args: List<Expr>)
    ensures Bare(Call(f, args)) == LeftOperand(f, 13) + [LeftParen] + ArgToks(args, true)
  {
  }

  lemma NothingNeeded(e: Expr)
    ensures !NeedsParens(e, 0) && Stops(RightParen, Edge(e))
  {
  }

  /** A parenthesised tree is read as the tree. */
  lemma {:induction false} ParensRead(e: Expr, toks: seq<Token>, pos: nat, rbp: nat)
    requires Printable(e) && Reads(toks, pos, Parens(Bare(e)))
    ensures ParseInner(toks, pos, rbp) == ParseLoop(toks, pos + |Parens(Bare(e))|, rbp, e)
    decreases e, 1
  {
    hide Bare, ParseInner, ParseLoop, ParseNud, Printable, Edge, Reads;
    NothingNeeded(e);
    var end := pos + 1 + |Bare(e)|;
    ReadsSplit(toks, pos, [LeftParen] + Bare(e), [RightParen]);
    ReadsSplit(toks, pos, [LeftParen], Bare(e));
    ReadsOne(toks, pos, [LeftParen], 0);
    ReadsOne(toks, end, [RightParen], 0);
    BareRead(e, toks, pos + 1, 0);
    LoopStops(toks, end, 0, e);
    NudParens(toks, pos, e, end);
    InnerIs(toks, pos, rbp, e, end + 1);
  }

  lemma {:induction false} OperandRead(e: Expr, toks: seq<Token>, pos: nat, rbp: nat)
    requires Printable(e) && Reads(toks, pos, Operand(e, rbp)) && rbp <= UNARY_POWER
    requires Stops(Peek(toks, pos + |Operand(e, rbp)|), Min(rbp, OperandEdge(e, rbp)))
    ensures ParseInner(toks, pos, rbp) == Ok(e, pos + |Operand(e, rbp)|)
    decreases e, 2
  {
    hide Bare, ParseInner, ParseLoop, Edge;
    if NeedsParens(e, rbp) {
      ParensRead(e, toks, pos, rbp);
    } else {
      BareRead(e, toks, pos, rbp);
    }
    LoopStops(toks, pos + |Operand(e, rbp)|, rbp, e);
  }

  lemma {:induction false} LeftRead(e: Expr, toks: seq<Token>, pos: nat, power: nat, rbp: nat)
    requires Printable(e) && Reads(toks, pos, LeftOperand(e, power)) && rbp < power && rbp <= UNARY_POWER
    requires Stops(Peek(toks, pos + |LeftOperand(e, power)|), power)
    ensures ParseInner(toks, pos, rbp) == ParseLoop(toks, pos + |LeftOperand(e, power)|, rbp, e)
    decreases e, 2
  {
    hide Bare, ParseInner, ParseLoop;
    if Edge(e) < power {
      ParensRead(e, toks, pos, rbp);
    } else {
      BareRead(e, toks, pos, rbp);
    }
  }

  lemma ArgsIs(toks: seq<Token>, pos: nat, first: bool, e: Expr, rest: List<Expr>, p: nat, p1: nat)
    requires if first then Peek(toks, pos) != RightParen
             else Peek(toks, pos) == Comma && Peek(toks, pos + 1) != RightParen
    requires ParseInner(toks, if first then pos else pos + 1, 0) == Ok(e, p) && ParseArgs(toks, p, false) == Ok(rest, p1)
    ensures ParseArgs(toks, pos, first) == Ok(Cons(e, rest), p1)
  {
    hide ParseInner;
    ExprIsInner(toks, if first then pos else pos + 1);
  }

  lemma {:induction false} ArgsRead(es: List<Expr>, toks: seq<Token>, pos: nat, first: bool)
    requires AllPrintable(es) && Reads(toks, pos, ArgToks(es, first))
    ensures ParseArgs(toks, pos, first) == Ok(es, pos + |ArgToks(es, first)|)
    decreases es, 0
  {
    hide ParseInner, ParseArgs, Operand, ArgToks, ParseExpr, Printable, Reads, Stops;
    match es
    case Nil => NoArgs(toks, pos, first);
    case Cons(e, rest) =>
      var sep: seq<Token> := if first then [] else [Comma];
      var arg, more := Operand(e, 0), ArgToks(rest, false);
      ArgToksIs(e, rest, first);
      ReadsSplit(toks, pos, sep + arg, more);
      ReadsSplit(toks, pos, sep, arg);
      if !first {
        ReadsOne(toks, pos, sep, 0);
      }
      StartOfOperand(e);
      ReadsOne(toks, pos + |sep|, arg, 0);
      ArgsRead(rest, toks, pos + |sep| + |arg|, false);
      AfterArg(rest, toks, pos + |sep| + |arg|);
      OperandRead(e, toks, pos + |sep|, 0);
      ArgsIs(toks, pos, first, e, rest, pos + |sep| + |arg|, pos + |ArgToks(es, first)|);
  }

  lemma NoArgs(toks: seq<Token>, pos: nat, first: bool)
    requires Reads(toks, pos, ArgToks(Nil, first))
    ensures ParseArgs(toks, pos, first) == Ok(Nil, pos + |ArgToks(Nil, first)|)
  {
    ReadsOne(toks, pos, [RightParen], 0);
  }

  lemma ArgToksIs(e: Expr, rest: List<Expr>, first: bool)
    ensures ArgToks(Cons(e, rest), first) == (if first then [] else [Comma]) + Operand(e, 0) + ArgToks(rest, false)
  {
  }

  lemma StartOfOperand(e: Expr)
    ensures |Operand(e, 0)| > 0 && Operand(e, 0)[0] != RightParen
  {
    StartOfTree(e);
  }

  /** What follows an argument ends it. */
  lemma AfterArg(rest: List<Expr>, toks: seq<Token>, pos: nat)
    requires Reads(toks, pos, ArgToks(rest, false))
    ensures Stops(Peek(toks, pos), 0)
  {
    match rest
    case Nil => ReadsOne(toks, pos, [RightParen], 0);
    case Cons(e, rest1) =>
      ReadsSplit(toks, pos, [Comma] + Operand(e, 0), ArgToks(rest1, false));
      ReadsSplit(toks, pos, [Comma], Operand(e, 0));
      ReadsOne(toks, pos, [Comma], 0);
  }

  lemma ExprIsInner(toks: seq<Token>, pos: nat)
    ensures ParseExpr(toks, pos) == ParseInner(toks, pos, 0)
  {
  }

  lemma ReadsMiddle(before: seq<Token>, part: seq<Token>, after: seq<Token>)
    ensures Reads(before + part + after, |before|, part)
    ensures Peek(before + part + after, |before| + |part|) == Peek(after, 0)
  {
    assert (before + part + after)[|before|..|before| + |part|] == part;
  }

  lemma StopsEdge(e: Expr, t: Token)
    requires Stops(t, 0)
    ensures Stops(t, Edge(e)) && !NeedsParens(e, 0)
  {
  }

  /** The round trip, for every printable tree in front of any token that ends an
      expression. */
  lemma RoundTrip(e: Expr, before: seq<Token>, after: seq<Token>)
    requires Printable(e) && Stops(Peek(after, 0), 0)
    ensures ParseExpr(before + Bare(e) + after, |before|) == Ok(e, |before| + |Bare(e)|)
  {
    hide Bare, ParseInner, ParseLoop, ParseExpr, Printable, Lbp, Reads, NeedsParens, Edge, Stops, Peek;
    var toks := before + Bare(e) + after;
    var end := |before| + |Bare(e)|;
    ReadsMiddle(before, Bare(e), after);
    StopsEdge(e, Peek(after, 0));
    BareRead(e, toks, |before|, 0);
    LoopEnds(toks, end, e);
    ExprIsInner(toks, |before|);
  }

  /** The parentheses around an infix operand are needed: without them the reader stops
      inside the tree. */
  lemma {:induction false} ParensNeeded(e: Expr, toks: seq<Token>, pos: nat, rbp: nat)
    requires Printable(e) && NeedsParens(e, rbp) && rbp <= UNARY_POWER
    requires Reads(toks, pos, Bare(e))
    ensures ParseInner(toks, pos, rbp).Ok? && ParseInner(toks, pos, rbp).pos < pos + |Bare(e)|
    decreases e
  {
    hide Bare, ParseInner, ParseLoop, LeftOperand, Operand;
    if e.Binary? {
      InfixStopsEarly(e, e.l, e.r, BinTok(e.op), BinPower(e.op), RightPower(e.op), toks, pos, rbp);
    } else {
      InfixStopsEarly(e, e.l, e.r, LogicTok(e.isAnd), LogicPower(e.isAnd), LogicPower(e.isAnd), toks, pos, rbp);
    }
  }

  lemma {:induction false} InfixStopsEarly(e: Expr, l: Expr, r: Expr, t: Token, power: nat, right: nat,
                                           toks: seq<Token>, pos: nat, rbp: nat)
    requires Infix(e, l, r, t, power, right) && Printable(l) && power <= rbp <= UNARY_POWER
    requires Reads(toks, pos, Bare(e))
    ensures ParseInner(toks, pos, rbp).Ok? && ParseInner(toks, pos, rbp).pos < pos + |Bare(e)|
    decreases e, 0
  {
    hide Bare, ParseInner, ParseLoop, Operand, Printable;
    var left := LeftOperand(l, power);
    BareInfix(e, l, r, t, power, right);
    ReadsSplit(toks, pos, left + [t], Operand(r, right));
    ReadsSplit(toks, pos, left, [t]);
    var mid := pos + |left|;
    ReadsOne(toks, mid, [t], 0);
    if Edge(l) < power {
      ParensRead(l, toks, pos, rbp);
      LoopStops(toks, mid, rbp, l);
    } else if NeedsParens(l, rbp) {
      ParensNeeded(l, toks, pos, rbp);
    } else {
      BareRead(l, toks, pos, rbp);
      LoopStops(toks, mid, rbp, l);
    }
  }

  /** A module that is one printed expression statement is read as that statement. */
  lemma PrintedModule(e: Expr)
    requires Printable(e)
    ensures ParseModule(Bare(e) + [Semicolon]) == Ok(Cons(ExprStmt(e), Nil), |Bare(e)| + 1)
  {
    hide Bare, ParseExpr, ParseBlock, Printable;
    var toks := Bare(e) + [Semicolon];
    StartOfTree(e);
    RoundTrip(e, [], [Semicolon]);
    assert [] + Bare(e) + [Semicolon] == toks;
    assert Peek(toks, 0) == Bare(e)[0];
    assert ParseStmt(toks, 0, 0) == Ok(ExprStmt(e), |toks|);
    BlockReads(toks, 0, 0, Eof);
    BlockReads(toks, |toks|, 0, Eof);
  }
}
