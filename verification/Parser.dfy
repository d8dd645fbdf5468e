/** The grammar that the recursive procedures of the compiler read: precedence tables
    and, for every procedure, the tree it recognises at a token position. */
module Parser {
  import opened Syntax

  datatype Token =
    | Ident(x: Name) | IntTok(n: int) | StrTok(id: Name) | NullTok | TrueTok | FalseTok
    | BinTok(op: BinOp) | AndAnd | OrOr | Bang | Tilde
    | Equal | OpEqual(op: BinOp) | PlusPlus | MinusMinus
    | LeftParen | RightParen | LeftBrace | RightBrace | Semicolon | Comma
    | KwLet | KwFunction | KwIf | KwElse | KwWhile | KwFor | KwBreak | KwContinue
    | KwReturn | KwThrow | KwTry | KwCatch
    | Eof

  /** Left binding power; `x = e` is not an infix operator but is listed with power 1. */
  function Lbp(t: Token): int {
    match t
    case Ident(_) => 0
    case IntTok(_) => 0
    case StrTok(_) => 0
    case NullTok => 0
    case TrueTok => 0
    case FalseTok => 0
    case Semicolon => 0
    case RightParen => 0
    case Comma => 0
    case Equal => 1
    case OrOr => 2
    case AndAnd => 3
    case BinTok(op) => BinPower(op)
    case LeftParen => 13
    case LeftBrace => 13
    case _ => -1
  }

  function BinPower(op: BinOp): (p: nat)
    ensures 4 <= p <= 12
  {
    match op
    case BitOr => 4
    case BitXor => 5
    case BitAnd => 6
    case Eq => 7
    case Ne => 7
    case Lt => 8
    case Le => 8
    case Gt => 8
    case Ge => 8
    case Add => 10
    case Sub => 10
    case Mul => 11
    case Div => 11
    case Mod => 11
    case Exp => 12
  }

  /** The power with which a prefix operator reads its operand. */
  const UNARY_POWER: nat := 11

  /** The power with which a binary operator reads its right operand: `**` is right
      associative. */
  function RightPower(op: BinOp): nat {
    if op == Exp then BinPower(op) - 1 else BinPower(op)
  }

  function LogicPower(isAnd: bool): nat { if isAnd then 3 else 2 }

  /** The operator of a compound assignment. */
  function CompoundOp(t: Token): Option<BinOp> {
    if t.OpEqual? && t.op in {Add, Sub, Mul, Exp, Div, Mod, BitAnd, BitOr, BitXor} then Some(t.op) else None
  }

  function UnaryOf(t: Token): Option<UnOp> {
    if t == BinTok(Sub) then Some(Neg)
    else if t == Bang then Some(Not)
    else if t == Tilde then Some(BitNot)
    else None
  }

  function LiteralOf(t: Token): Option<Literal> {
    match t
    case IntTok(n) => Some(IntLit(n))
    case StrTok(id) => Some(StrLit(id))
    case NullTok => Some(NullLit)
    case TrueTok => Some(TrueLit)
    case FalseTok => Some(FalseLit)
    case _ => None
  }

  /** A tree and the position after it, or a syntax error.  (Forms outside the fragment
      count as errors.) */
  datatype Parsed<+T> = Ok(tree: T, pos: nat) | Bad

  function Peek(toks: seq<Token>, pos: nat): Token {
    if pos < |toks| then toks[pos] else Eof
  }

  /** The position after an expected token. */
  function Expect(toks: seq<Token>, pos: nat, t: Token): Parsed<()> {
    if pos < |toks| && toks[pos] == t then Ok((), pos + 1) else Bad
  }

  // ----- expressions -----

  function ParseExpr(toks: seq<Token>, pos: nat): (r: Parsed<Expr>)
    ensures r.Ok? ==> pos < r.pos <= |toks|
    decreases |toks| - pos, 4
  {
    ParseInner(toks, pos, 0)
  }

  function ParseInner(toks: seq<Token>, pos: nat, rbp: nat): (r: Parsed<Expr>)
    ensures r.Ok? ==> pos < r.pos <= |toks|
    decreases |toks| - pos, 3
  {
    match ParseNud(toks, pos)
    case Bad => Bad
    case Ok(e, p) => ParseLoop(toks, p, rbp, e)
  }

  /** Infix operators that bind tighter than `rbp`. */
  function ParseLoop(toks: seq<Token>, pos: nat, rbp: nat, left: Expr): (r: Parsed<Expr>)
    requires pos <= |toks|
    ensures r.Ok? ==> pos <= r.pos <= |toks|
    decreases |toks| - pos, 2
  {
    if rbp < Lbp(Peek(toks, pos)) then
      match ParseLed(toks, pos, left)
      case Bad => Bad
      case Ok(e, p) => ParseLoop(toks, p, rbp, e)
    else Ok(left, pos)
  }

  function ParseNud(toks: seq<Token>, pos: nat): (r: Parsed<Expr>)
    ensures r.Ok? ==> pos < r.pos <= |toks|
    decreases |toks| - pos, 1
  {
    var t := Peek(toks, pos);
    if t.Ident? then ParseIdent(toks, pos, t.x)
    else if LiteralOf(t).Some? then Ok(Const(LiteralOf(t).value), pos + 1)
    else if t == LeftParen then
      match ParseExpr(toks, pos + 1)
      case Bad => Bad
      case Ok(e, p) => (match Expect(toks, p, RightParen) case Bad => Bad case Ok(_, p1) => Ok(e, p1))
    else if UnaryOf(t).Some? then
      match ParseInner(toks, pos + 1, UNARY_POWER)
      case Bad => Bad
      case Ok(e, p) => Ok(Unary(UnaryOf(t).value, e), p)
    else Bad
  }

  /** A name, possibly assigned to; the assigned expression extends as far as it can. */
  function ParseIdent(toks: seq<Token>, pos: nat, x: Name): (r: Parsed<Expr>)
    requires pos < |toks|
    ensures r.Ok? ==> pos < r.pos <= |toks|
    decreases |toks| - pos, 0
  {
    var t := Peek(toks, pos + 1);
    if CompoundOp(t).Some? then
      match ParseExpr(toks, pos + 2)
      case Bad => Bad
      case Ok(e, p) => Ok(OpAssign(x, CompoundOp(t).value, e), p)
    else if t == Equal then
      match ParseExpr(toks, pos + 2)
      case Bad => Bad
      case Ok(e, p) => Ok(Assign(x, e), p)
    else if t == PlusPlus || t == MinusMinus then Ok(Bump(x, t == PlusPlus), pos + 2)
    else Ok(Var(x), pos + 1)
  }

  function ParseLed(toks: seq<Token>, pos: nat, left: Expr): (r: Parsed<Expr>)
    ensures r.Ok? ==> pos < r.pos <= |toks|
    decreases |toks| - pos, 1
  {
    var t := Peek(toks, pos);
    if t.BinTok? then
      match ParseInner(toks, pos + 1, RightPower(t.op))
      case Bad => Bad
      case Ok(e, p) => Ok(Binary(t.op, left, e), p)
    else if t == AndAnd || t == OrOr then
      match ParseInner(toks, pos + 1, LogicPower(t == AndAnd))
      case Bad => Bad
      case Ok(e, p) => Ok(Logic(t == AndAnd, left, e), p)
    else if t == LeftParen then
      match ParseArgs(toks, pos + 1, true)
      case Bad => Bad
      case Ok(args, p) => Ok(Call(left, args), p)
    else Bad
  }

  /** Arguments up to and including the closing parenthesis; a comma may end the list. */
  function ParseArgs(toks: seq<Token>, pos: nat, first: bool): (r: Parsed<List<Expr>>)
    ensures r.Ok? ==> pos < r.pos <= |toks|
    decreases |toks| - pos, 5
  {
    if Peek(toks, pos) == RightParen then Ok(Nil, pos + 1)
    else if !first && Peek(toks, pos) != Comma then Bad
    else if !first && Peek(toks, pos + 1) == RightParen then Ok(Nil, pos + 2)
    else
      match ParseExpr(toks, if first then pos else pos + 1)
      case Bad => Bad
      case Ok(e, p) =>
        match ParseArgs(toks, p, false)
        case Bad => Bad
        case Ok(rest, p1) => Ok(Cons(e, rest), p1)
  }

  // ----- statements -----

  /** `f` functions have been declared before. */
  function ParseStmt(toks: seq<Token>, pos: nat, f: nat): (r: Parsed<Stmt>)
    ensures r.Ok? ==> pos < r.pos <= |toks|
    decreases |toks| - pos, 1
  {
    match Peek(toks, pos)
    case KwLet =>
      (match ParseDecls(toks, pos + 1)
       case Bad => Bad
       case Ok(ds, p) => Ok(Let(ds), p))
    case KwFunction => ParseFun(toks, pos, f)
    case KwIf => ParseIf(toks, pos, f)
    case KwFor => ParseFor(toks, pos, f)
    case KwWhile => ParseWhile(toks, pos, f)
    case KwBreak =>
      (match Expect(toks, pos + 1, Semicolon) case Bad => Bad case Ok(_, p) => Ok(Break, p))
    case KwContinue =>
      (match Expect(toks, pos + 1, Semicolon) case Bad => Bad case Ok(_, p) => Ok(Continue, p))
    case KwReturn =>
      if Peek(toks, pos + 1) == Semicolon then Ok(Return(None), pos + 2)
      else (match ParseExprSemi(toks, pos + 1) case Bad => Bad case Ok(e, p) => Ok(Return(Some(e)), p))
    case KwThrow =>
      (match ParseExprSemi(toks, pos + 1) case Bad => Bad case Ok(e, p) => Ok(Throw(e), p))
    case KwTry => ParseTry(toks, pos, f)
    case _ =>
      (match ParseExprSemi(toks, pos) case Bad => Bad case Ok(e, p) => Ok(ExprStmt(e), p))
  }

  function ParseExprSemi(toks: seq<Token>, pos: nat): (r: Parsed<Expr>)
    ensures r.Ok? ==> pos < r.pos <= |toks|
  {
    match ParseExpr(toks, pos)
    case Bad => Bad
    case Ok(e, p) => (match Expect(toks, p, Semicolon) case Bad => Bad case Ok(_, p1) => Ok(e, p1))
  }

  /** Declarations up to and including the semicolon. */
  function ParseDecls(toks: seq<Token>, pos: nat): (r: Parsed<List<Decl>>)
    ensures r.Ok? ==> pos < r.pos <= |toks|
    decreases |toks| - pos
  {
    match ParseDecl(toks, pos)
    case Bad => Bad
    case Ok(d, p) =>
      if Peek(toks, p) == Comma then
        (match ParseDecls(toks, p + 1) case Bad => Bad case Ok(rest, p1) => Ok(Cons(d, rest), p1))
      else
        (match Expect(toks, p, Semicolon) case Bad => Bad case Ok(_, p1) => Ok(Cons(d, Nil), p1))
  }

  function ParseDecl(toks: seq<Token>, pos: nat): (r: Parsed<Decl>)
    ensures r.Ok? ==> pos < r.pos <= |toks|
  {
    var t := Peek(toks, pos);
    if !t.Ident? then Bad
    else if Peek(toks, pos + 1) == Equal then
      (match ParseExpr(toks, pos + 2) case Bad => Bad case Ok(e, p) => Ok(Decl(t.x, Some(e)), p))
    else Ok(Decl(t.x, None), pos + 1)
  }

  /** `{`, statements, `}`. */
  function ParseBraces(toks: seq<Token>, pos: nat, f: nat): (r: Parsed<List<Stmt>>)
    ensures r.Ok? ==> pos < r.pos <= |toks|
    decreases |toks| - pos, 0
  {
    if Peek(toks, pos) == LeftBrace then ParseBlock(toks, pos + 1, f, RightBrace) else Bad
  }

  /** Statements up to and including the token `end`. */
  function ParseBlock(toks: seq<Token>, pos: nat, f: nat, end: Token): (r: Parsed<List<Stmt>>)
    ensures r.Ok? ==> pos <= r.pos && (end != Eof ==> pos < r.pos <= |toks|)
    decreases |toks| - pos, 2
  {
    if Peek(toks, pos) == end then Ok(Nil, if end == Eof then pos else pos + 1)
    else
      match ParseStmt(toks, pos, f)
      case Bad => Bad
      case Ok(s, p) =>
        match ParseBlock(toks, p, f + |StmtFuns(s)|, end)
        case Bad => Bad
        case Ok(rest, p1) => Ok(Cons(s, rest), p1)
  }

  /** `(`, an expression, `)`. */
  function ParseParens(toks: seq<Token>, pos: nat): (r: Parsed<Expr>)
    ensures r.Ok? ==> pos < r.pos <= |toks|
  {
    if Peek(toks, pos) != LeftParen then Bad
    else
      match ParseExpr(toks, pos + 1)
      case Bad => Bad
      case Ok(e, p) => (match Expect(toks, p, RightParen) case Bad => Bad case Ok(_, p1) => Ok(e, p1))
  }

  function ParseIf(toks: seq<Token>, pos: nat, f: nat): (r: Parsed<Stmt>)
    requires Peek(toks, pos) == KwIf
    ensures r.Ok? ==> pos < r.pos <= |toks|
    decreases |toks| - pos, 0
  {
    match ParseParens(toks, pos + 1)
    case Bad => Bad
    case Ok(c, p) =>
      match ParseBraces(toks, p, f)
      case Bad => Bad
      case Ok(thn, p1) =>
        match ParseElse(toks, p1, f + |BlockFuns(thn)|)
        case Bad => Bad
        case Ok(els, p2) => Ok(If(c, thn, els), p2)
  }

  function ParseElse(toks: seq<Token>, pos: nat, f: nat): (r: Parsed<Else>)
    requires pos <= |toks|
    ensures r.Ok? ==> pos <= r.pos <= |toks|
    decreases |toks| - pos, 1
  {
    if Peek(toks, pos) != KwElse then Ok(NoElse, pos)
    else if Peek(toks, pos + 1) == KwIf then
      (match ParseIf(toks, pos + 1, f) case Bad => Bad case Ok(s, p) => Ok(ElseIf(s), p))
    else
      (match ParseBraces(toks, pos + 1, f) case Bad => Bad case Ok(body, p) => Ok(ElseBlock(body), p))
  }

  function ParseWhile(toks: seq<Token>, pos: nat, f: nat): (r: Parsed<Stmt>)
    requires Peek(toks, pos) == KwWhile
    ensures r.Ok? ==> pos < r.pos <= |toks|
    decreases |toks| - pos, 0
  {
    match ParseParens(toks, pos + 1)
    case Bad => Bad
    case Ok(c, p) => (match ParseBraces(toks, p, f) case Bad => Bad case Ok(body, p1) => Ok(While(c, body), p1))
  }

  /** The first part of a `for` header is any statement, semicolon included. */
  function ParseInit(toks: seq<Token>, pos: nat, f: nat): (r: Parsed<Option<Stmt>>)
    ensures r.Ok? ==> pos < r.pos <= |toks|
    decreases |toks| - pos, 2
  {
    if Peek(toks, pos) == Semicolon then Ok(None, pos + 1)
    else (match ParseStmt(toks, pos, f) case Bad => Bad case Ok(s, p) => Ok(Some(s), p))
  }

  /** An optional expression and the token that ends it. */
  function ParseOptional(toks: seq<Token>, pos: nat, end: Token): (r: Parsed<Option<Expr>>)
    requires end != Eof
    ensures r.Ok? ==> pos < r.pos <= |toks|
  {
    if Peek(toks, pos) == end then Ok(None, pos + 1)
    else
      match ParseExpr(toks, pos)
      case Bad => Bad
      case Ok(e, p) => (match Expect(toks, p, end) case Bad => Bad case Ok(_, p1) => Ok(Some(e), p1))
  }

  function InitFuns(s: Option<Stmt>): seq<FunDecl> { if s.Some? then StmtFuns(s.value) else [] }

  function ParseFor(toks: seq<Token>, pos: nat, f: nat): (r: Parsed<Stmt>)
    requires Peek(toks, pos) == KwFor
    ensures r.Ok? ==> pos < r.pos <= |toks|
    decreases |toks| - pos, 0
  {
    if Peek(toks, pos + 1) != LeftParen then Bad
    else
      match ParseInit(toks, pos + 2, f)
      case Bad => Bad
      case Ok(init, p) =>
        match ParseOptional(toks, p, Semicolon)
        case Bad => Bad
        case Ok(test, p1) =>
          match ParseOptional(toks, p1, RightParen)
          case Bad => Bad
          case Ok(step, p2) =>
            match ParseBraces(toks, p2, f + |InitFuns(init)|)
            case Bad => Bad
            case Ok(body, p3) => Ok(For(init, test, step, body), p3)
  }

  function ParseCatchName(toks: seq<Token>, pos: nat): (r: Parsed<Option<Name>>)
    requires pos <= |toks|
    ensures r.Ok? ==> pos <= r.pos <= |toks|
  {
    if Peek(toks, pos) != LeftParen then Ok(None, pos)
    else if !Peek(toks, pos + 1).Ident? then Bad
    else
      (match Expect(toks, pos + 2, RightParen) case Bad => Bad case Ok(_, p) => Ok(Some(Peek(toks, pos + 1).x), p))
  }

  function ParseTry(toks: seq<Token>, pos: nat, f: nat): (r: Parsed<Stmt>)
    requires Peek(toks, pos) == KwTry
    ensures r.Ok? ==> pos < r.pos <= |toks|
    decreases |toks| - pos, 0
  {
    match ParseBraces(toks, pos + 1, f)
    case Bad => Bad
    case Ok(body, p) =>
      if Peek(toks, p) != KwCatch then Bad
      else
        match ParseCatchName(toks, p + 1)
        case Bad => Bad
        case Ok(name, p1) =>
          match ParseBraces(toks, p1, f + |BlockFuns(body)|)
          case Bad => Bad
          case Ok(handler, p2) => Ok(Try(body, name, handler), p2)
  }

  /** Parameter names up to and including the closing parenthesis. */
  function ParseParams(toks: seq<Token>, pos: nat, first: bool): (r: Parsed<seq<Name>>)
    ensures r.Ok? ==> pos < r.pos <= |toks|
    decreases |toks| - pos
  {
    if Peek(toks, pos) == RightParen then Ok([], pos + 1)
    else if !first && Peek(toks, pos) != Comma then Bad
    else if !first && Peek(toks, pos + 1) == RightParen then Ok([], pos + 2)
    else
      var p := if first then pos else pos + 1;
      if !Peek(toks, p).Ident? then Bad
      else
        match ParseParams(toks, p + 1, false)
        case Bad => Bad
        case Ok(rest, p1) => Ok([Peek(toks, p).x] + rest, p1)
  }

  function ParseFun(toks: seq<Token>, pos: nat, f: nat): (r: Parsed<Stmt>)
    requires Peek(toks, pos) == KwFunction
    ensures r.Ok? ==> pos < r.pos <= |toks|
    decreases |toks| - pos, 0
  {
    if !Peek(toks, pos + 1).Ident? || Peek(toks, pos + 2) != LeftParen then Bad
    else
      match ParseParams(toks, pos + 3, true)
      case Bad => Bad
      case Ok(params, p) =>
        match ParseBraces(toks, p, f)
        case Bad => Bad
        case Ok(body, p1) => Ok(Fun(f, FunDecl(Peek(toks, pos + 1).x, params, body)), p1)
  }

  /** A whole module. */
  function ParseModule(toks: seq<Token>): Parsed<List<Stmt>> {
    ParseBlock(toks, 0, 0, Eof)
  }

  // ----- what each statement is made of, when it is one -----

  lemma ArgsRead(toks: seq<Token>, pos: nat, first: bool)
    ensures var p := if first then pos else pos + 1;
            var e := ParseExpr(toks, p);
            var rest := if e.Ok? then ParseArgs(toks, e.pos, false) else Bad;
            ParseArgs(toks, pos, first)
            == if Peek(toks, pos) == RightParen then Ok(Nil, pos + 1)
               else if !first && Peek(toks, pos) != Comma then Bad
               else if !first && Peek(toks, p) == RightParen then Ok(Nil, p + 1)
               else if rest.Ok? then Ok(Cons(e.tree, rest.tree), rest.pos) else Bad
  {
    hide ParseExpr;
  }

  lemma ParamsRead(toks: seq<Token>, pos: nat, first: bool)
    ensures var p := if first then pos else pos + 1;
            var x := Peek(toks, p);
            var rest := if x.Ident? then ParseParams(toks, p + 1, false) else Bad;
            ParseParams(toks, pos, first)
            == if Peek(toks, pos) == RightParen then Ok([], pos + 1)
               else if !first && Peek(toks, pos) != Comma then Bad
               else if !first && Peek(toks, p) == RightParen then Ok([], p + 1)
               else if rest.Ok? then Ok([x.x] + rest.tree, rest.pos) else Bad
  {
  }

  lemma BlockReads(toks: seq<Token>, pos: nat, f: nat, end: Token)
    ensures var s := ParseStmt(toks, pos, f);
            var rest := if s.Ok? then ParseBlock(toks, s.pos, f + |StmtFuns(s.tree)|, end) else Bad;
            ParseBlock(toks, pos, f, end)
            == if Peek(toks, pos) == end then Ok(Nil, if end == Eof then pos else pos + 1)
               else if rest.Ok? then Ok(Cons(s.tree, rest.tree), rest.pos) else Bad
  {
    hide ParseStmt, StmtFuns;
  }

  lemma BracesRead(toks: seq<Token>, pos: nat, f: nat)
    ensures ParseBraces(toks, pos, f)
         == if Peek(toks, pos) == LeftBrace then ParseBlock(toks, pos + 1, f, RightBrace) else Bad
  {
  }

  lemma WhileReads(toks: seq<Token>, pos: nat, f: nat)
    requires Peek(toks, pos) == KwWhile
    ensures var c := ParseExpr(toks, pos + 2);
            var good := Peek(toks, pos + 1) == LeftParen && c.Ok? && Peek(toks, c.pos) == RightParen;
            var body := if good then ParseBraces(toks, c.pos + 1, f) else Bad;
            ParseWhile(toks, pos, f) == if body.Ok? then Ok(While(c.tree, body.tree), body.pos) else Bad
  {
    hide ParseExpr, ParseBraces;
  }

  lemma IfReads(toks: seq<Token>, pos: nat, f: nat)
    requires Peek(toks, pos) == KwIf
    ensures var c := ParseExpr(toks, pos + 2);
            var good := Peek(toks, pos + 1) == LeftParen && c.Ok? && Peek(toks, c.pos) == RightParen;
            var thn := if good then ParseBraces(toks, c.pos + 1, f) else Bad;
            var els := if thn.Ok? then ParseElse(toks, thn.pos, f + |BlockFuns(thn.tree)|) else Bad;
            ParseIf(toks, pos, f) == if els.Ok? then Ok(If(c.tree, thn.tree, els.tree), els.pos) else Bad
  {
    hide ParseExpr, ParseBraces, ParseElse;
  }

  lemma ForReads(toks: seq<Token>, pos: nat, f: nat)
    requires Peek(toks, pos) == KwFor
    ensures var init := if Peek(toks, pos + 1) == LeftParen then ParseInit(toks, pos + 2, f) else Bad;
            var test := if init.Ok? then ParseOptional(toks, init.pos, Semicolon) else Bad;
            var step := if test.Ok? then ParseOptional(toks, test.pos, RightParen) else Bad;
            var body := if step.Ok? then ParseBraces(toks, step.pos, f + |InitFuns(init.tree)|) else Bad;
            ParseFor(toks, pos, f) == if body.Ok? then Ok(For(init.tree, test.tree, step.tree, body.tree), body.pos) else Bad
  {
    hide ParseInit, ParseOptional, ParseBraces;
  }

  lemma TryReads(toks: seq<Token>, pos: nat, f: nat)
    requires Peek(toks, pos) == KwTry
    ensures var body := ParseBraces(toks, pos + 1, f);
            var name := if body.Ok? && Peek(toks, body.pos) == KwCatch then ParseCatchName(toks, body.pos + 1) else Bad;
            var handler := if name.Ok? then ParseBraces(toks, name.pos, f + |BlockFuns(body.tree)|) else Bad;
            ParseTry(toks, pos, f) == if handler.Ok? then Ok(Try(body.tree, name.tree, handler.tree), handler.pos) else Bad
  {
    hide ParseBraces, ParseCatchName;
  }

  lemma FunReads(toks: seq<Token>, pos: nat, f: nat)
    requires Peek(toks, pos) == KwFunction
    ensures var x := Peek(toks, pos + 1);
            var params := if x.Ident? && Peek(toks, pos + 2) == LeftParen then ParseParams(toks, pos + 3, true) else Bad;
            var body := if params.Ok? then ParseBraces(toks, params.pos, f) else Bad;
            ParseFun(toks, pos, f) == if body.Ok? then Ok(Fun(f, FunDecl(x.x, params.tree, body.tree)), body.pos) else Bad
  {
    hide ParseParams, ParseBraces;
  }

  lemma DeclsRead(toks: seq<Token>, pos: nat)
    ensures var d := ParseDecl(toks, pos);
            ParseDecls(toks, pos) == if d.Bad? then Bad
                                     else if Peek(toks, d.pos) == Comma then
                                       var rest := ParseDecls(toks, d.pos + 1);
                                       if rest.Ok? then Ok(Cons(d.tree, rest.tree), rest.pos) else Bad
                                     else if Peek(toks, d.pos) == Semicolon then Ok(Cons(d.tree, Nil), d.pos + 1)
                                     else Bad
  {
    hide ParseDecl;
  }
}
