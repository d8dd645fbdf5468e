/** Statements and modules as texts: the reader accepts exactly these, each as its tree. */
module Scripts {
  import opened Syntax
  import opened Parser
  import opened Pratt
  import opened Grammar

  datatype DeclText = DeclText(x: Name, init: Option<Text>)

  datatype Line =
    | ExprLine(t: Text)
    | LetLine(ds: List<DeclText>)
    | IfLine(c: Text, thn: List<Line>, els: ElseText)
    | WhileLine(c: Text, body: List<Line>)
    | ForLine(init: Option<Line>, test: Option<Text>, step: Option<Text>, body: List<Line>)
    | BreakLine
    | ContinueLine
    | ReturnLine(v: Option<Text>)
    | ThrowLine(t: Text)
    | TryLine(body: List<Line>, name: Option<Name>, handler: List<Line>)
    | FunLine(fname: Name, params: seq<Name>, comma: bool, body: List<Line>)

  datatype ElseText = Without | AnotherIf(s: Line) | Otherwise(body: List<Line>)

  // ----- the tokens -----

  function Maybe(t: Option<Text>): seq<Token> { if t.Some? then Tokens(t.value) else [] }

  function DeclTokens(d: DeclText): seq<Token> {
    [Ident(d.x)] + if d.init.Some? then [Equal] + Tokens(d.init.value) else []
  }

  function DeclsTokens(ds: List<DeclText>): seq<Token> {
    match ds
    case Nil => [Semicolon]
    case Cons(d, rest) => DeclTokens(d) + (if rest.Cons? then [Comma] else []) + DeclsTokens(rest)
  }

  function ParamTokens(xs: seq<Name>, first: bool, comma: bool): seq<Token>
    decreases xs
  {
    if xs == [] then (if comma && !first then [Comma] else []) + [RightParen]
    else (if first then [] else [Comma]) + [Ident(xs[0])] + ParamTokens(xs[1..], false, comma)
  }

  function CatchTokens(name: Option<Name>): seq<Token> {
    if name.Some? then [LeftParen, Ident(name.value), RightParen] else []
  }

  function LineTokens(l: Line): seq<Token>
    decreases l, 0
  {
    match l
    case ExprLine(t) => Tokens(t) + [Semicolon]
    case LetLine(ds) => [KwLet] + DeclsTokens(ds)
    case IfLine(c, thn, els) => [KwIf, LeftParen] + Tokens(c) + [RightParen] + BraceTokens(thn) + ElseTokens(els)
    case WhileLine(c, body) => [KwWhile, LeftParen] + Tokens(c) + [RightParen] + BraceTokens(body)
    case ForLine(init, test, step, body) =>
      [KwFor, LeftParen] + InitTokens(init) + (Maybe(test) + [Semicolon]) + (Maybe(step) + [RightParen]) + BraceTokens(body)
    case BreakLine => [KwBreak, Semicolon]
    case ContinueLine => [KwContinue, Semicolon]
    case ReturnLine(v) => [KwReturn] + (Maybe(v) + [Semicolon])
    case ThrowLine(t) => [KwThrow] + (Tokens(t) + [Semicolon])
    case TryLine(body, name, handler) => [KwTry] + BraceTokens(body) + [KwCatch] + CatchTokens(name) + BraceTokens(handler)
    case FunLine(name, params, comma, body) =>
      [KwFunction, Ident(name), LeftParen] + ParamTokens(params, true, comma) + BraceTokens(body)
  }

  function InitTokens(init: Option<Line>): seq<Token>
    decreases init, 1
  {
    match init
    case None => [Semicolon]
    case Some(l) => LineTokens(l)
  }

  function ElseTokens(els: ElseText): seq<Token>
    decreases els, 0
  {
    match els
    case Without => []
    case AnotherIf(s) => [KwElse] + LineTokens(s)
    case Otherwise(body) => [KwElse] + BraceTokens(body)
  }

  function BraceTokens(ls: List<Line>): seq<Token>
    decreases ls, 1
  {
    [LeftBrace] + BlockTokens(ls) + [RightBrace]
  }

  function BlockTokens(ls: List<Line>): seq<Token>
    decreases ls, 0
  {
    match ls
    case Nil => []
    case Cons(l, rest) => LineTokens(l) + BlockTokens(rest)
  }

  // ----- the trees -----

  function MaybeTree(t: Option<Text>): Option<Expr> { if t.Some? then Some(TreeOf(t.value)) else None }

  function DeclsTree(ds: List<DeclText>): List<Decl> {
    match ds
    case Nil => Nil
    case Cons(d, rest) => Cons(Decl(d.x, MaybeTree(d.init)), DeclsTree(rest))
  }

  /** `f` functions have been declared before. */
  function LineTree(l: Line, f: nat): Stmt
    decreases l, 0
  {
    match l
    case ExprLine(t) => ExprStmt(TreeOf(t))
    case LetLine(ds) => Let(DeclsTree(ds))
    case IfLine(c, thn, els) =>
      var body := BlockTree(thn, f);
      If(TreeOf(c), body, ElseTree(els, f + |BlockFuns(body)|))
    case WhileLine(c, body) => While(TreeOf(c), BlockTree(body, f))
    case ForLine(init, test, step, body) =>
      var i := InitTree(init, f);
      For(i, MaybeTree(test), MaybeTree(step), BlockTree(body, f + |InitFuns(i)|))
    case BreakLine => Break
    case ContinueLine => Continue
    case ReturnLine(v) => Return(MaybeTree(v))
    case ThrowLine(t) => Throw(TreeOf(t))
    case TryLine(body, name, handler) =>
      var b := BlockTree(body, f);
      Try(b, name, BlockTree(handler, f + |BlockFuns(b)|))
    case FunLine(name, params, _, body) => Fun(f, FunDecl(name, params, BlockTree(body, f)))
  }

  function InitTree(init: Option<Line>, f: nat): Option<Stmt>
    decreases init, 1
  {
    match init
    case None => None
    case Some(l) => Some(LineTree(l, f))
  }

  function ElseTree(els: ElseText, f: nat): Else
    decreases els, 0
  {
    match els
    case Without => NoElse
    case AnotherIf(s) => ElseIf(LineTree(s, f))
    case Otherwise(body) => ElseBlock(BlockTree(body, f))
  }

  function BlockTree(ls: List<Line>, f: nat): List<Stmt>
    decreases ls, 0
  {
    match ls
    case Nil => Nil
    case Cons(l, rest) =>
      var s := LineTree(l, f);
      Cons(s, BlockTree(rest, f + |StmtFuns(s)|))
  }

  // ----- the texts that count -----

  predicate MaybeOn(t: Option<Text>) { t.Some? ==> On(t.value, OrLevel) }

  predicate DeclsOn(ds: List<DeclText>) {
    match ds
    case Nil => true
    case Cons(d, rest) => MaybeOn(d.init) && DeclsOn(rest)
  }

  predicate Proper(l: Line)
    decreases l, 0
  {
    match l
    case ExprLine(t) => On(t, OrLevel)
    case LetLine(ds) => ds.Cons? && DeclsOn(ds)
    case IfLine(c, thn, els) => On(c, OrLevel) && AllProper(thn) && ProperElse(els)
    case WhileLine(c, body) => On(c, OrLevel) && AllProper(body)
    case ForLine(init, test, step, body) => ProperInit(init) && MaybeOn(test) && MaybeOn(step) && AllProper(body)
    case ReturnLine(v) => MaybeOn(v)
    case ThrowLine(t) => On(t, OrLevel)
    case TryLine(body, _, handler) => AllProper(body) && AllProper(handler)
    case FunLine(_, _, _, body) => AllProper(body)
    case _ => true
  }

  predicate ProperInit(init: Option<Line>)
    decreases init, 1
  {
    match init
    case None => true
    case Some(l) => Proper(l)
  }

  predicate ProperElse(els: ElseText)
    decreases els, 0
  {
    match els
    case Without => true
    case AnotherIf(s) => s.IfLine? && Proper(s)
    case Otherwise(body) => AllProper(body)
  }

  predicate AllProper(ls: List<Line>)
    decreases ls, 0
  {
    match ls
    case Nil => true
    case Cons(l, rest) => Proper(l) && AllProper(rest)
  }

  // ----- every text is read as its tree -----

  lemma ExprReads(t: Text, toks: seq<Token>, pos: nat)
    requires On(t, OrLevel) && Reads(toks, pos, Tokens(t)) && Stops(Peek(toks, pos + |Tokens(t)|), 0)
    ensures ParseExpr(toks, pos) == Ok(TreeOf(t), pos + |Tokens(t)|)
    ensures StartsExpr(Peek(toks, pos))
  {
    hide On, Tokens, TreeOf, ParseInner, ParseExpr, Limit, Stops;
    StopsLess(Peek(toks, pos + |Tokens(t)|), Limit(t));
    WholeRead(t, OrLevel, toks, pos, 0);
    ExprIsInner(toks, pos);
    TokensStart(t, OrLevel);
    ReadsOne(toks, pos, Tokens(t), 0);
  }

  /** An expression and the token that ends it. */
  lemma EndedReads(t: Text, end: Token, toks: seq<Token>, pos: nat)
    requires On(t, OrLevel) && Reads(toks, pos, Tokens(t) + [end]) && end in {Semicolon, RightParen, Comma}
    ensures ParseExpr(toks, pos) == Ok(TreeOf(t), pos + |Tokens(t)|) && Peek(toks, pos + |Tokens(t)|) == end
    ensures pos + |Tokens(t)| < |toks| && StartsExpr(Peek(toks, pos))
  {
    hide On, Tokens, TreeOf, ParseExpr;
    ReadsSplit(toks, pos, Tokens(t), [end]);
    ReadsOne(toks, pos + |Tokens(t)|, [end], 0);
    ExprReads(t, toks, pos);
  }

  lemma MaybeReads(t: Option<Text>, end: Token, toks: seq<Token>, pos: nat)
    requires MaybeOn(t) && Reads(toks, pos, Maybe(t) + [end]) && end in {Semicolon, RightParen}
    ensures ParseOptional(toks, pos, end) == Ok(MaybeTree(t), pos + |Maybe(t)| + 1)
    ensures Peek(toks, pos) != KwElse
  {
    hide On, Tokens, TreeOf, ParseExpr;
    if t.Some? {
      EndedReads(t.value, end, toks, pos);
    } else {
      ReadsOne(toks, pos, Maybe(t) + [end], 0);
    }
  }

  lemma {:induction false} DeclsReads(ds: List<DeclText>, toks: seq<Token>, pos: nat)
    requires ds.Cons? && DeclsOn(ds) && Reads(toks, pos, DeclsTokens(ds))
    ensures ParseDecls(toks, pos) == Ok(DeclsTree(ds), pos + |DeclsTokens(ds)|)
    decreases ds
  {
    hide On, Tokens, TreeOf, ParseExpr, ParseDecl, ParseDecls, Reads;
    var d, rest := ds.head, ds.tail;
    var sep, more := if rest.Cons? then [Comma] else [], DeclsTokens(rest);
    ReadsSplit(toks, pos, DeclTokens(d) + sep, more);
    ReadsSplit(toks, pos, DeclTokens(d), sep);
    var p := pos + |DeclTokens(d)|;
    ReadsOne(toks, p, if rest.Cons? then sep else more, 0);
    DeclReads(d, toks, pos);
    DeclsRead(toks, pos);
    if rest.Cons? {
      DeclsReads(rest, toks, p + 1);
    }
  }

  lemma DeclReads(d: DeclText, toks: seq<Token>, pos: nat)
    requires MaybeOn(d.init) && Reads(toks, pos, DeclTokens(d)) && Peek(toks, pos + |DeclTokens(d)|) in {Comma, Semicolon}
    ensures ParseDecl(toks, pos) == Ok(Decl(d.x, MaybeTree(d.init)), pos + |DeclTokens(d)|)
  {
    hide On, Tokens, TreeOf, ParseExpr;
    ReadsOne(toks, pos, DeclTokens(d), 0);
    if d.init.Some? {
      ReadsOne(toks, pos, DeclTokens(d), 1);
      assert DeclTokens(d) == [Ident(d.x), Equal] + Tokens(d.init.value);
      ReadsSplit(toks, pos, [Ident(d.x), Equal], Tokens(d.init.value));
      ExprReads(d.init.value, toks, pos + 2);
    }
  }

  lemma {:induction false} ParamsReads(xs: seq<Name>, first: bool, comma: bool, toks: seq<Token>, pos: nat)
    requires Reads(toks, pos, ParamTokens(xs, first, comma))
    ensures ParseParams(toks, pos, first) == Ok(xs, pos + |ParamTokens(xs, first, comma)|)
    decreases xs
  {
    hide ParseParams, Reads;
    var part := ParamTokens(xs, first, comma);
    ParamsRead(toks, pos, first);
    ReadsOne(toks, pos, part, 0);
    if xs == [] {
      ReadsOne(toks, pos, part, |part| - 1);
    } else {
      var sep: seq<Token> := if first then [] else [Comma];
      ReadsOne(toks, pos, part, |sep|);
      ReadsSplit(toks, pos, sep + [Ident(xs[0])], ParamTokens(xs[1..], false, comma));
      ParamsReads(xs[1..], false, comma, toks, pos + |sep| + 1);
      assert [xs[0]] + xs[1..] == xs;
    }
  }

  /** What a line starts with, and what cannot follow an `if` without `else`. */
  lemma {:induction false} LineStart(l: Line)
    requires Proper(l)
    ensures |LineTokens(l)| > 0 && LineTokens(l)[0] !in {RightBrace, Eof, KwElse, Semicolon}
  {
    hide On, Tokens;
    if l.ExprLine? {
      TokensStart(l.t, OrLevel);
    }
  }

  lemma BlockStart(ls: List<Line>, toks: seq<Token>, pos: nat, end: Token)
    requires AllProper(ls) && Reads(toks, pos, BlockTokens(ls)) && Peek(toks, pos + |BlockTokens(ls)|) == end && end in {RightBrace, Eof}
    ensures Peek(toks, pos) != KwElse && (ls.Cons? ==> Peek(toks, pos) != end)
  {
    hide Proper, LineTokens;
    if ls.Cons? {
      LineStart(ls.head);
      ReadsOne(toks, pos, BlockTokens(ls), 0);
    }
  }

  lemma {:induction false} BlockReadsAs(ls: List<Line>, toks: seq<Token>, pos: nat, f: nat, end: Token)
    requires AllProper(ls) && Reads(toks, pos, BlockTokens(ls)) && Peek(toks, pos + |BlockTokens(ls)|) == end && end in {RightBrace, Eof}
    ensures ParseBlock(toks, pos, f, end)
         == Ok(BlockTree(ls, f), if end == Eof then pos + |BlockTokens(ls)| else pos + |BlockTokens(ls)| + 1)
    decreases ls, 0
  {
    hide Proper, LineTokens, LineTree, ParseBlock, ParseStmt, StmtFuns, Reads;
    BlockStart(ls, toks, pos, end);
    BlockReads(toks, pos, f, end);
    if ls.Cons? {
      var l, rest := ls.head, ls.tail;
      ReadsSplit(toks, pos, LineTokens(l), BlockTokens(rest));
      var p := pos + |LineTokens(l)|;
      BlockStart(rest, toks, p, end);
      LineReads(l, toks, pos, f);
      BlockReadsAs(rest, toks, p, f + |StmtFuns(LineTree(l, f))|, end);
    }
  }

  lemma {:induction false} BracesReadsAs(ls: List<Line>, toks: seq<Token>, pos: nat, f: nat)
    requires AllProper(ls) && Reads(toks, pos, BraceTokens(ls))
    ensures ParseBraces(toks, pos, f) == Ok(BlockTree(ls, f), pos + |BraceTokens(ls)|)
    decreases ls, 1
  {
    hide AllProper, BlockTokens, BlockTree, ParseBlock, Reads;
    BraceParts(ls, toks, pos);
    BracesRead(toks, pos, f);
    BlockReadsAs(ls, toks, pos + 1, f, RightBrace);
  }

  lemma BraceParts(ls: List<Line>, toks: seq<Token>, pos: nat)
    requires Reads(toks, pos, BraceTokens(ls))
    ensures Peek(toks, pos) == LeftBrace && Reads(toks, pos + 1, BlockTokens(ls)) && Peek(toks, pos + 1 + |BlockTokens(ls)|) == RightBrace
    ensures pos + |BraceTokens(ls)| <= |toks| && |BraceTokens(ls)| == |BlockTokens(ls)| + 2
  {
    hide BlockTokens;
    ReadsSplit(toks, pos, [LeftBrace] + BlockTokens(ls), [RightBrace]);
    ReadsSplit(toks, pos, [LeftBrace], BlockTokens(ls));
    ReadsOne(toks, pos, [LeftBrace], 0);
    ReadsOne(toks, pos + 1 + |BlockTokens(ls)|, [RightBrace], 0);
  }

  lemma {:induction false} LineReads(l: Line, toks: seq<Token>, pos: nat, f: nat)
    requires Proper(l) && Reads(toks, pos, LineTokens(l)) && Peek(toks, pos + |LineTokens(l)|) != KwElse
    ensures ParseStmt(toks, pos, f) == Ok(LineTree(l, f), pos + |LineTokens(l)|)
    decreases l, 2
  {
    hide Proper, LineTokens, LineTree, Reads, ParseExprSemi, ParseDecls, ParseIf, ParseFor, ParseWhile, ParseTry, ParseFun;
    FirstToken(l);
    ReadsOne(toks, pos, LineTokens(l), 0);
    match l
    case IfLine(_, _, _) => IfLineReads(l, toks, pos, f);
    case WhileLine(_, _) => WhileLineReads(l, toks, pos, f);
    case ForLine(_, _, _, _) => ForLineReads(l, toks, pos, f);
    case TryLine(_, _, _) => TryLineReads(l, toks, pos, f);
    case FunLine(_, _, _, _) => FunLineReads(l, toks, pos, f);
    case LetLine(_) => LetLineReads(l, toks, pos);
    case BreakLine => LeaveLineReads(l, toks, pos, f);
    case ContinueLine => LeaveLineReads(l, toks, pos, f);
    case _ => ValueLineReads(l, toks, pos, f);
  }

  function Keyword(l: Line): Token
    requires !l.ExprLine?
  {
    match l
    case LetLine(_) => KwLet
    case IfLine(_, _, _) => KwIf
    case WhileLine(_, _) => KwWhile
    case ForLine(_, _, _, _) => KwFor
    case BreakLine => KwBreak
    case ContinueLine => KwContinue
    case ReturnLine(_) => KwReturn
    case ThrowLine(_) => KwThrow
    case TryLine(_, _, _) => KwTry
    case FunLine(_, _, _, _) => KwFunction
  }

  lemma FirstToken(l: Line)
    requires Proper(l)
    ensures |LineTokens(l)| > 0 && if l.ExprLine? then StartsExpr(LineTokens(l)[0]) else LineTokens(l)[0] == Keyword(l)
  {
    hide On, Tokens;
    if l.ExprLine? {
      TokensStart(l.t, OrLevel);
    }
  }

  lemma LetLineReads(l: Line, toks: seq<Token>, pos: nat)
    requires l.LetLine? && Proper(l) && Reads(toks, pos, LineTokens(l))
    ensures ParseDecls(toks, pos + 1) == Ok(LineTree(l, 0).decls, pos + |LineTokens(l)|)
    ensures LineTree(l, 0).Let? && forall f :: LineTree(l, f) == LineTree(l, 0)
  {
    hide DeclsTokens, ParseDecls, Reads;
    ReadsSplit(toks, pos, [KwLet], DeclsTokens(l.ds));
    DeclsReads(l.ds, toks, pos + 1);
  }

  lemma LeaveLineReads(l: Line, toks: seq<Token>, pos: nat, f: nat)
    requires (l.BreakLine? || l.ContinueLine?) && Reads(toks, pos, LineTokens(l))
    ensures ParseStmt(toks, pos, f) == Ok(LineTree(l, f), pos + |LineTokens(l)|)
  {
    hide ParseExprSemi;
    ReadsOne(toks, pos, LineTokens(l), 0);
    ReadsOne(toks, pos, LineTokens(l), 1);
  }

  lemma ValueLineReads(l: Line, toks: seq<Token>, pos: nat, f: nat)
    requires (l.ExprLine? || l.ReturnLine? || l.ThrowLine?) && Proper(l) && Reads(toks, pos, LineTokens(l))
    ensures ParseStmt(toks, pos, f) == Ok(LineTree(l, f), pos + |LineTokens(l)|)
  {
    hide On, Tokens, TreeOf, ParseExpr, Reads;
    match l
    case ExprLine(t) =>
      EndedReads(t, Semicolon, toks, pos);
      ExprStatement(toks, pos, f);
    case ReturnLine(v) =>
      ReadsSplit(toks, pos, [KwReturn], Maybe(v) + [Semicolon]);
      ReadsOne(toks, pos, [KwReturn], 0);
      if v.Some? {
        EndedReads(v.value, Semicolon, toks, pos + 1);
      } else {
        ReadsOne(toks, pos + 1, Maybe(v) + [Semicolon], 0);
      }
    case ThrowLine(t) =>
      ReadsSplit(toks, pos, [KwThrow], Tokens(t) + [Semicolon]);
      ReadsOne(toks, pos, [KwThrow], 0);
      EndedReads(t, Semicolon, toks, pos + 1);
  }

  lemma {:induction false} WhileLineReads(l: Line, toks: seq<Token>, pos: nat, f: nat)
    requires l.WhileLine? && Proper(l) && Reads(toks, pos, LineTokens(l)) && Peek(toks, pos) == KwWhile
    ensures ParseWhile(toks, pos, f) == Ok(LineTree(l, f), pos + |LineTokens(l)|)
    decreases l, 1
  {
    hide On, AllProper, Tokens, TreeOf, BraceTokens, BlockTree, ParseExpr, ParseBraces, ParseWhile;
    ConditionReads(KwWhile, l.c, BraceTokens(l.body), toks, pos);
    BracesReadsAs(l.body, toks, pos + 3 + |Tokens(l.c)|, f);
    WhileReads(toks, pos, f);
  }

  lemma InRange(toks: seq<Token>, pos: nat, part: seq<Token>)
    requires Reads(toks, pos, part)
    ensures pos + |part| <= |toks|
  {
  }

  lemma ExprStatement(toks: seq<Token>, pos: nat, f: nat)
    requires StartsExpr(Peek(toks, pos))
    ensures ParseStmt(toks, pos, f) == match ParseExprSemi(toks, pos) case Bad => Bad case Ok(e, p) => Ok(ExprStmt(e), p)
  {
    hide ParseExprSemi;
  }

  /** A keyword, a condition in parentheses, and the rest. */
  lemma ConditionReads(kw: Token, c: Text, rest: seq<Token>, toks: seq<Token>, pos: nat)
    requires On(c, OrLevel) && Reads(toks, pos, [kw, LeftParen] + Tokens(c) + [RightParen] + rest)
    ensures var p := pos + 2 + |Tokens(c)|;
            && Peek(toks, pos + 1) == LeftParen && ParseExpr(toks, pos + 2) == Ok(TreeOf(c), p) && Peek(toks, p) == RightParen
            && Reads(toks, p + 1, rest)
  {
    hide On, Tokens, TreeOf, ParseExpr;
    ReadsSplit(toks, pos, [kw, LeftParen] + Tokens(c) + [RightParen], rest);
    assert [kw, LeftParen] + Tokens(c) + [RightParen] == [kw, LeftParen] + (Tokens(c) + [RightParen]);
    ReadsSplit(toks, pos, [kw, LeftParen], Tokens(c) + [RightParen]);
    ReadsOne(toks, pos, [kw, LeftParen], 1);
    EndedReads(c, RightParen, toks, pos + 2);
  }

  lemma {:induction false} IfLineReads(l: Line, toks: seq<Token>, pos: nat, f: nat)
    requires l.IfLine? && Proper(l) && Reads(toks, pos, LineTokens(l)) && Peek(toks, pos + |LineTokens(l)|) != KwElse
    requires Peek(toks, pos) == KwIf
    ensures ParseIf(toks, pos, f) == Ok(LineTree(l, f), pos + |LineTokens(l)|)
    decreases l, 1
  {
    hide On, AllProper, Tokens, TreeOf, BraceTokens, BlockTree, ParseExpr, ParseBraces, ParseElse, ParseIf, ElseTokens, ElseTree, ProperElse, BlockFuns;
    var rest, p := BraceTokens(l.thn) + ElseTokens(l.els), pos + 3 + |Tokens(l.c)|;
    assert LineTokens(l) == [KwIf, LeftParen] + Tokens(l.c) + [RightParen] + rest;
    ConditionReads(KwIf, l.c, rest, toks, pos);
    ReadsSplit(toks, p, BraceTokens(l.thn), ElseTokens(l.els));
    BracesReadsAs(l.thn, toks, p, f);
    ElseReads(l.els, toks, p + |BraceTokens(l.thn)|, f + |BlockFuns(BlockTree(l.thn, f))|);
    IfReads(toks, pos, f);
  }

  lemma {:induction false} ElseReads(els: ElseText, toks: seq<Token>, pos: nat, f: nat)
    requires ProperElse(els) && Reads(toks, pos, ElseTokens(els)) && Peek(toks, pos + |ElseTokens(els)|) != KwElse
    ensures ParseElse(toks, pos, f) == Ok(ElseTree(els, f), pos + |ElseTokens(els)|)
    decreases els, 0
  {
    hide On, AllProper, BraceTokens, BlockTree, ParseExpr, ParseBraces, ParseIf, LineTokens, LineTree, Proper;
    match els
    case Without =>
    case AnotherIf(s) =>
      ReadsSplit(toks, pos, [KwElse], LineTokens(s));
      ReadsOne(toks, pos, [KwElse], 0);
      IfStart(s);
      ReadsOne(toks, pos + 1, LineTokens(s), 0);
      IfLineReads(s, toks, pos + 1, f);
    case Otherwise(body) =>
      ReadsSplit(toks, pos, [KwElse], BraceTokens(body));
      ReadsOne(toks, pos, [KwElse], 0);
      BraceParts(body, toks, pos + 1);
      BracesReadsAs(body, toks, pos + 1, f);
  }

  lemma IfStart(s: Line)
    requires s.IfLine?
    ensures |LineTokens(s)| > 0 && LineTokens(s)[0] == KwIf
  {
  }

  lemma {:induction false} ForLineReads(l: Line, toks: seq<Token>, pos: nat, f: nat)
    requires l.ForLine? && Proper(l) && Reads(toks, pos, LineTokens(l)) && Peek(toks, pos) == KwFor
    ensures ParseFor(toks, pos, f) == Ok(LineTree(l, f), pos + |LineTokens(l)|)
    decreases l, 1
  {
    hide On, AllProper, Tokens, TreeOf, BraceTokens, BlockTree, ParseExpr, ParseBraces, ParseOptional, ParseInit, ParseFor;
    hide Reads, InitTokens, InitTree, ProperInit, MaybeOn, Maybe, MaybeTree, InitFuns;
    var a, b, c, d := InitTokens(l.init), Maybe(l.test) + [Semicolon], Maybe(l.step) + [RightParen], BraceTokens(l.body);
    ReadsSplit(toks, pos, [KwFor, LeftParen] + a + b + c, d);
    ReadsSplit(toks, pos, [KwFor, LeftParen] + a + b, c);
    ReadsSplit(toks, pos, [KwFor, LeftParen] + a, b);
    ReadsSplit(toks, pos, [KwFor, LeftParen], a);
    ReadsOne(toks, pos, [KwFor, LeftParen], 1);
    var p := pos + 2 + |a|;
    var p1, p2 := p + |b|, p + |b| + |c|;
    MaybeReads(l.test, Semicolon, toks, p);
    MaybeReads(l.step, RightParen, toks, p1);
    InitReads(l.init, toks, pos + 2, f);
    BracesReadsAs(l.body, toks, p2, f + |InitFuns(InitTree(l.init, f))|);
    ForReads(toks, pos, f);
  }

  lemma {:induction false} InitReads(init: Option<Line>, toks: seq<Token>, pos: nat, f: nat)
    requires ProperInit(init) && Reads(toks, pos, InitTokens(init)) && Peek(toks, pos + |InitTokens(init)|) != KwElse
    ensures ParseInit(toks, pos, f) == Ok(InitTree(init, f), pos + |InitTokens(init)|)
    decreases init, 3
  {
    hide LineTokens, LineTree, Proper, ParseStmt;
    if init.Some? {
      LineStart(init.value);
      ReadsOne(toks, pos, LineTokens(init.value), 0);
      LineReads(init.value, toks, pos, f);
    } else {
      ReadsOne(toks, pos, InitTokens(init), 0);
    }
  }

  lemma {:induction false} TryLineReads(l: Line, toks: seq<Token>, pos: nat, f: nat)
    requires l.TryLine? && Proper(l) && Reads(toks, pos, LineTokens(l)) && Peek(toks, pos) == KwTry
    ensures ParseTry(toks, pos, f) == Ok(LineTree(l, f), pos + |LineTokens(l)|)
    decreases l, 1
  {
    hide AllProper, BraceTokens, BlockTree, ParseBraces, ParseTry, Reads, BlockFuns, ParseCatchName, CatchTokens;
    var a, b := BraceTokens(l.body), CatchTokens(l.name);
    var p := pos + 1 + |a|;
    TryPieces(l, toks, pos);
    BracesReadsAs(l.body, toks, pos + 1, f);
    BraceParts(l.handler, toks, p + 1 + |b|);
    CatchReads(l.name, toks, p + 1);
    BracesReadsAs(l.handler, toks, p + 1 + |b|, f + |BlockFuns(BlockTree(l.body, f))|);
    TryReads(toks, pos, f);
  }

  lemma TryPieces(l: Line, toks: seq<Token>, pos: nat)
    requires l.TryLine? && Reads(toks, pos, LineTokens(l))
    ensures var a, b, c := BraceTokens(l.body), CatchTokens(l.name), BraceTokens(l.handler);
            var p := pos + 1 + |a|;
            && Reads(toks, pos + 1, a) && Peek(toks, p) == KwCatch && p < |toks| && Reads(toks, p + 1, b) && Reads(toks, p + 1 + |b|, c)
            && |LineTokens(l)| == 2 + |a| + |b| + |c|
  {
    hide BraceTokens, CatchTokens;
    var a, b, c := BraceTokens(l.body), CatchTokens(l.name), BraceTokens(l.handler);
    ReadsSplit(toks, pos, [KwTry] + a + [KwCatch] + b, c);
    ReadsSplit(toks, pos, [KwTry] + a + [KwCatch], b);
    ReadsSplit(toks, pos, [KwTry] + a, [KwCatch]);
    ReadsSplit(toks, pos, [KwTry], a);
    ReadsOne(toks, pos + 1 + |a|, [KwCatch], 0);
  }

  lemma CatchReads(name: Option<Name>, toks: seq<Token>, pos: nat)
    requires Reads(toks, pos, CatchTokens(name)) && Peek(toks, pos + |CatchTokens(name)|) == LeftBrace && pos <= |toks|
    ensures ParseCatchName(toks, pos) == Ok(name, pos + |CatchTokens(name)|)
  {
    if name.Some? {
      ReadsOne(toks, pos, CatchTokens(name), 0);
      ReadsOne(toks, pos, CatchTokens(name), 1);
      ReadsOne(toks, pos, CatchTokens(name), 2);
    }
  }

  lemma {:induction false} FunLineReads(l: Line, toks: seq<Token>, pos: nat, f: nat)
    requires l.FunLine? && Proper(l) && Reads(toks, pos, LineTokens(l)) && Peek(toks, pos) == KwFunction
    ensures ParseFun(toks, pos, f) == Ok(LineTree(l, f), pos + |LineTokens(l)|)
    decreases l, 1
  {
    hide AllProper, BraceTokens, BlockTree, ParseBraces, ParseFun, ParseParams, ParamTokens, Reads;
    var head, ps := [KwFunction, Ident(l.fname), LeftParen], ParamTokens(l.params, true, l.comma);
    ReadsSplit(toks, pos, head + ps, BraceTokens(l.body));
    ReadsSplit(toks, pos, head, ps);
    ReadsOne(toks, pos, head, 1);
    ReadsOne(toks, pos, head, 2);
    ParamsReads(l.params, true, l.comma, toks, pos + 3);
    BracesReadsAs(l.body, toks, pos + 3 + |ps|, f);
    FunReads(toks, pos, f);
  }

  // ----- everything that is read is such a text -----

  /** `part` is what stands from `pos` to `p`. */
  predicate Stands(toks: seq<Token>, pos: nat, p: nat, part: seq<Token>) {
    pos <= p <= |toks| && toks[pos..p] == part
  }

  lemma Glue(toks: seq<Token>, a: nat, b: nat, c: nat, left: seq<Token>, right: seq<Token>)
    requires Stands(toks, a, b, left) && Stands(toks, b, c, right)
    ensures Stands(toks, a, c, left + right)
  {
    assert toks[a..c] == toks[a..b] + toks[b..c];
  }

  lemma One(toks: seq<Token>, pos: nat, t: Token)
    requires Peek(toks, pos) == t && pos < |toks|
    ensures Stands(toks, pos, pos + 1, [t])
  {
  }

  lemma NotAtEnd(toks: seq<Token>, pos: nat)
    requires Peek(toks, pos) != Eof
    ensures pos < |toks|
  {
  }

  lemma EndedText(toks: seq<Token>, pos: nat, end: Token) returns (t: Text)
    requires ParseExpr(toks, pos).Ok? && Peek(toks, ParseExpr(toks, pos).pos) == end && end != Eof
    ensures var r := ParseExpr(toks, pos);
            On(t, OrLevel) && TreeOf(t) == r.tree && Stands(toks, pos, r.pos + 1, Tokens(t) + [end])
  {
    hide ParseExpr, On, Tokens, TreeOf;
    var r := ParseExpr(toks, pos);
    t := ReadIsText(toks, pos);
    One(toks, r.pos, end);
    Glue(toks, pos, r.pos, r.pos + 1, Tokens(t), [end]);
  }

  lemma MaybeText(toks: seq<Token>, pos: nat, end: Token) returns (t: Option<Text>)
    requires end != Eof && ParseOptional(toks, pos, end).Ok?
    ensures var r := ParseOptional(toks, pos, end);
            MaybeOn(t) && MaybeTree(t) == r.tree && Stands(toks, pos, r.pos, Maybe(t) + [end])
  {
    hide ParseExpr, On, Tokens, TreeOf;
    if Peek(toks, pos) == end {
      t := None;
      One(toks, pos, end);
      assert Maybe(t) + [end] == [end];
    } else {
      var t1 := EndedText(toks, pos, end);
      t := Some(t1);
    }
  }

  lemma OneDeclText(toks: seq<Token>, pos: nat) returns (d: DeclText)
    requires ParseDecl(toks, pos).Ok?
    ensures var r := ParseDecl(toks, pos);
            MaybeOn(d.init) && Decl(d.x, MaybeTree(d.init)) == r.tree && Stands(toks, pos, r.pos, DeclTokens(d))
  {
    hide ParseExpr, On, Tokens, TreeOf;
    var x := Peek(toks, pos).x;
    One(toks, pos, Ident(x));
    if Peek(toks, pos + 1) == Equal {
      One(toks, pos + 1, Equal);
      Glue(toks, pos, pos + 1, pos + 2, [Ident(x)], [Equal]);
      var t := ReadIsText(toks, pos + 2);
      d := DeclText(x, Some(t));
      Glue(toks, pos, pos + 2, ParseExpr(toks, pos + 2).pos, [Ident(x)] + [Equal], Tokens(t));
      assert [Ident(x)] + [Equal] + Tokens(t) == DeclTokens(d);
    } else {
      d := DeclText(x, None);
      assert [Ident(x)] + [] == [Ident(x)];
    }
  }

  lemma {:induction false} DeclsText(toks: seq<Token>, pos: nat) returns (ds: List<DeclText>)
    requires ParseDecls(toks, pos).Ok?
    ensures var r := ParseDecls(toks, pos);
            ds.Cons? && DeclsOn(ds) && DeclsTree(ds) == r.tree && Stands(toks, pos, r.pos, DeclsTokens(ds))
    decreases |toks| - pos
  {
    hide ParseDecl, ParseDecls, On, DeclTokens, Stands;
    DeclsRead(toks, pos);
    var p := ParseDecl(toks, pos).pos;
    var d := OneDeclText(toks, pos);
    if Peek(toks, p) == Comma {
      NotAtEnd(toks, p);
      One(toks, p, Comma);
      Glue(toks, pos, p, p + 1, DeclTokens(d), [Comma]);
      var rest := DeclsText(toks, p + 1);
      ds := Cons(d, rest);
      Glue(toks, pos, p + 1, ParseDecls(toks, p + 1).pos, DeclTokens(d) + [Comma], DeclsTokens(rest));
    } else {
      ds := Cons(d, Nil);
      NotAtEnd(toks, p);
      One(toks, p, Semicolon);
      Glue(toks, pos, p, p + 1, DeclTokens(d), [Semicolon]);
      assert DeclTokens(d) + [] + [Semicolon] == DeclTokens(d) + [Semicolon];
    }
  }

  lemma {:induction false} ParamsText(toks: seq<Token>, pos: nat, first: bool) returns (comma: bool)
    requires ParseParams(toks, pos, first).Ok?
    ensures var r := ParseParams(toks, pos, first); Stands(toks, pos, r.pos, ParamTokens(r.tree, first, comma))
    decreases |toks| - pos
  {
    hide ParseParams, Stands;
    ParamsRead(toks, pos, first);
    NotAtEnd(toks, pos);
    var r := ParseParams(toks, pos, first);
    var p := if first then pos else pos + 1;
    comma := false;
    if Peek(toks, pos) == RightParen {
      One(toks, pos, RightParen);
      assert [] + [RightParen] == [RightParen];
    } else if !first && Peek(toks, p) == RightParen {
      comma := true;
      NotAtEnd(toks, p);
      One(toks, pos, Comma);
      One(toks, p, RightParen);
      Glue(toks, pos, p, p + 1, [Comma], [RightParen]);
    } else {
      NotAtEnd(toks, p);
      var x := Peek(toks, p).x;
      var sep: seq<Token> := if first then [] else [Comma];
      assert Stands(toks, pos, p, sep) by { SepStands(toks, pos, first); }
      One(toks, p, Ident(x));
      Glue(toks, pos, p, p + 1, sep, [Ident(x)]);
      comma := ParamsText(toks, p + 1, false);
      Glue(toks, pos, p + 1, r.pos, sep + [Ident(x)], ParamTokens(r.tree[1..], false, comma));
    }
  }

  lemma SepStands(toks: seq<Token>, pos: nat, first: bool)
    requires pos < |toks| && (!first ==> Peek(toks, pos) == Comma)
    ensures Stands(toks, pos, if first then pos else pos + 1, if first then [] else [Comma])
  {
  }

  lemma {:induction false} BlockText(toks: seq<Token>, pos: nat, f: nat, end: Token) returns (ls: List<Line>)
    requires pos <= |toks| && ParseBlock(toks, pos, f, end).Ok? && end in {RightBrace, Eof}
    ensures var r := ParseBlock(toks, pos, f, end);
            var q := if end == Eof then r.pos else r.pos - 1;
            AllProper(ls) && BlockTree(ls, f) == r.tree && Peek(toks, q) == end && Stands(toks, pos, q, BlockTokens(ls))
    decreases |toks| - pos, 2
  {
    hide ParseBlock, ParseStmt, StmtFuns, Proper, LineTokens, LineTree, Stands;
    BlockReads(toks, pos, f, end);
    if Peek(toks, pos) == end {
      ls := Nil;
      assert Stands(toks, pos, pos, []) by { NothingStands(toks, pos); }
    } else {
      var s := ParseStmt(toks, pos, f);
      var l := StmtText(toks, pos, f);
      var rest := BlockText(toks, s.pos, f + |StmtFuns(s.tree)|, end);
      ls := Cons(l, rest);
      var r := ParseBlock(toks, pos, f, end);
      Glue(toks, pos, s.pos, if end == Eof then r.pos else r.pos - 1, LineTokens(l), BlockTokens(rest));
    }
  }

  lemma NothingStands(toks: seq<Token>, pos: nat)
    requires pos <= |toks|
    ensures Stands(toks, pos, pos, [])
  {
  }

  lemma {:induction false} BracesText(toks: seq<Token>, pos: nat, f: nat) returns (ls: List<Line>)
    requires ParseBraces(toks, pos, f).Ok?
    ensures var r := ParseBraces(toks, pos, f);
            AllProper(ls) && BlockTree(ls, f) == r.tree && Stands(toks, pos, r.pos, BraceTokens(ls))
    decreases |toks| - pos, 0
  {
    hide ParseBlock, AllProper, BlockTokens, BlockTree, Stands;
    BracesRead(toks, pos, f);
    NotAtEnd(toks, pos);
    ls := BlockText(toks, pos + 1, f, RightBrace);
    var q := ParseBraces(toks, pos, f).pos - 1;
    NotAtEnd(toks, q);
    One(toks, pos, LeftBrace);
    One(toks, q, RightBrace);
    Glue(toks, pos, pos + 1, q, [LeftBrace], BlockTokens(ls));
    Glue(toks, pos, q, q + 1, [LeftBrace] + BlockTokens(ls), [RightBrace]);
  }

  /** A line that spells a statement. */
  ghost predicate Writes(l: Line, toks: seq<Token>, pos: nat, f: nat, r: Parsed<Stmt>) {
    r.Ok? && Proper(l) && LineTree(l, f) == r.tree && Stands(toks, pos, r.pos, LineTokens(l))
  }

  lemma {:induction false} StmtText(toks: seq<Token>, pos: nat, f: nat) returns (l: Line)
    requires ParseStmt(toks, pos, f).Ok?
    ensures Writes(l, toks, pos, f, ParseStmt(toks, pos, f))
    decreases |toks| - pos, 1
  {
    hide ParseDecls, ParseIf, ParseFor, ParseWhile, ParseTry, ParseFun, ParseExprSemi, Writes;
    match Peek(toks, pos)
    case KwLet => l := LetText(toks, pos, f);
    case KwFunction => l := FunText(toks, pos, f);
    case KwIf => l := IfText(toks, pos, f);
    case KwFor => l := ForText(toks, pos, f);
    case KwWhile => l := WhileText(toks, pos, f);
    case KwBreak => l := LeaveText(toks, pos, f);
    case KwContinue => l := LeaveText(toks, pos, f);
    case KwTry => l := TryText(toks, pos, f);
    case _ => l := ValueText(toks, pos, f);
  }

  lemma LetText(toks: seq<Token>, pos: nat, f: nat) returns (l: Line)
    requires Peek(toks, pos) == KwLet && ParseStmt(toks, pos, f).Ok?
    ensures Writes(l, toks, pos, f, ParseStmt(toks, pos, f))
  {
    hide ParseDecls, DeclsTokens, Stands;
    var ds := DeclsText(toks, pos + 1);
    l := LetLine(ds);
    NotAtEnd(toks, pos);
    One(toks, pos, KwLet);
    Glue(toks, pos, pos + 1, ParseDecls(toks, pos + 1).pos, [KwLet], DeclsTokens(ds));
  }

  lemma LeaveText(toks: seq<Token>, pos: nat, f: nat) returns (l: Line)
    requires Peek(toks, pos) in {KwBreak, KwContinue} && ParseStmt(toks, pos, f).Ok?
    ensures Writes(l, toks, pos, f, ParseStmt(toks, pos, f))
  {
    hide ParseExprSemi, Stands;
    l := if Peek(toks, pos) == KwBreak then BreakLine else ContinueLine;
    One(toks, pos, Peek(toks, pos));
    One(toks, pos + 1, Semicolon);
    Glue(toks, pos, pos + 1, pos + 2, [Peek(toks, pos)], [Semicolon]);
    assert [Peek(toks, pos)] + [Semicolon] == LineTokens(l);
  }

  lemma ValueText(toks: seq<Token>, pos: nat, f: nat) returns (l: Line)
    requires Peek(toks, pos) !in {KwLet, KwFunction, KwIf, KwFor, KwWhile, KwBreak, KwContinue, KwTry} && ParseStmt(toks, pos, f).Ok?
    ensures Writes(l, toks, pos, f, ParseStmt(toks, pos, f))
  {
    hide ParseExpr, On, Tokens, TreeOf, Stands;
    var kw := Peek(toks, pos);
    if kw == KwReturn && Peek(toks, pos + 1) == Semicolon {
      l := ReturnLine(None);
      TwoStand(toks, pos, kw, Semicolon);
    } else if kw == KwThrow || kw == KwReturn {
      var t := KeywordText(toks, pos, kw);
      l := if kw == KwReturn then ReturnLine(Some(t)) else ThrowLine(t);
    } else {
      var t := EndedText(toks, pos, Semicolon);
      l := ExprLine(t);
    }
  }

  lemma TwoStand(toks: seq<Token>, pos: nat, a: Token, b: Token)
    requires Peek(toks, pos) == a && Peek(toks, pos + 1) == b && b != Eof
    ensures Stands(toks, pos, pos + 2, [a, b]) && [a] + ([] + [b]) == [a, b]
  {
    NotAtEnd(toks, pos + 1);
    assert toks[pos..pos + 2] == [toks[pos], toks[pos + 1]];
  }

  lemma KeywordText(toks: seq<Token>, pos: nat, kw: Token) returns (t: Text)
    requires Peek(toks, pos) == kw && kw != Eof
    requires ParseExpr(toks, pos + 1).Ok? && Peek(toks, ParseExpr(toks, pos + 1).pos) == Semicolon
    ensures var r := ParseExpr(toks, pos + 1);
            On(t, OrLevel) && TreeOf(t) == r.tree && Stands(toks, pos, r.pos + 1, [kw] + (Tokens(t) + [Semicolon]))
  {
    hide ParseExpr, On, Tokens, TreeOf, Stands;
    NotAtEnd(toks, pos);
    One(toks, pos, kw);
    t := EndedText(toks, pos + 1, Semicolon);
    Glue(toks, pos, pos + 1, ParseExpr(toks, pos + 1).pos + 1, [kw], Tokens(t) + [Semicolon]);
  }

  /** `(`, a condition and `)` behind a keyword. */
  lemma ConditionText(toks: seq<Token>, pos: nat) returns (c: Text)
    requires Peek(toks, pos) != Eof && Peek(toks, pos + 1) == LeftParen
    requires ParseExpr(toks, pos + 2).Ok? && Peek(toks, ParseExpr(toks, pos + 2).pos) == RightParen
    ensures var r := ParseExpr(toks, pos + 2);
            On(c, OrLevel) && TreeOf(c) == r.tree
            && Stands(toks, pos, r.pos + 1, [Peek(toks, pos), LeftParen] + Tokens(c) + [RightParen])
  {
    hide ParseExpr, On, Tokens, TreeOf, Stands;
    var r, kw := ParseExpr(toks, pos + 2), Peek(toks, pos);
    c := EndedText(toks, pos + 2, RightParen);
    NotAtEnd(toks, pos);
    NotAtEnd(toks, pos + 1);
    One(toks, pos, kw);
    One(toks, pos + 1, LeftParen);
    Glue(toks, pos, pos + 1, pos + 2, [kw], [LeftParen]);
    assert [kw] + [LeftParen] == [kw, LeftParen];
    Glue(toks, pos, pos + 2, r.pos + 1, [kw, LeftParen], Tokens(c) + [RightParen]);
    assert [kw, LeftParen] + (Tokens(c) + [RightParen]) == [kw, LeftParen] + Tokens(c) + [RightParen];
  }

  lemma {:induction false} WhileText(toks: seq<Token>, pos: nat, f: nat) returns (l: Line)
    requires Peek(toks, pos) == KwWhile && ParseWhile(toks, pos, f).Ok?
    ensures Writes(l, toks, pos, f, ParseWhile(toks, pos, f))
    decreases |toks| - pos, 0
  {
    hide ParseExpr, ParseBraces, ParseWhile, On, Tokens, TreeOf, AllProper, BraceTokens, BlockTree, Stands;
    WhileReads(toks, pos, f);
    var c := ConditionText(toks, pos);
    var p := ParseExpr(toks, pos + 2).pos + 1;
    var body := BracesText(toks, p, f);
    l := WhileLine(c, body);
    Glue(toks, pos, p, ParseBraces(toks, p, f).pos, [KwWhile, LeftParen] + Tokens(c) + [RightParen], BraceTokens(body));
  }

  lemma {:induction false} IfText(toks: seq<Token>, pos: nat, f: nat) returns (l: Line)
    requires Peek(toks, pos) == KwIf && ParseIf(toks, pos, f).Ok?
    ensures l.IfLine? && Writes(l, toks, pos, f, ParseIf(toks, pos, f))
    decreases |toks| - pos, 0
  {
    hide ParseExpr, ParseBraces, ParseElse, ParseIf, On, Tokens, TreeOf, AllProper, BraceTokens, BlockTree, Stands, BlockFuns;
    hide ProperElse, ElseTokens, ElseTree;
    IfReads(toks, pos, f);
    var c := ConditionText(toks, pos);
    var p := ParseExpr(toks, pos + 2).pos + 1;
    var b := ParseBraces(toks, p, f);
    var thn := BracesText(toks, p, f);
    var g := f + |BlockFuns(b.tree)|;
    var els := RestText(toks, b.pos, g);
    l := IfLine(c, thn, els);
    var head := [KwIf, LeftParen] + Tokens(c) + [RightParen];
    Glue(toks, pos, p, b.pos, head, BraceTokens(thn));
    Glue(toks, pos, b.pos, ParseElse(toks, b.pos, g).pos, head + BraceTokens(thn), ElseTokens(els));
  }

  lemma {:induction false} RestText(toks: seq<Token>, pos: nat, f: nat) returns (els: ElseText)
    requires pos <= |toks| && ParseElse(toks, pos, f).Ok?
    ensures var r := ParseElse(toks, pos, f);
            ProperElse(els) && ElseTree(els, f) == r.tree && Stands(toks, pos, r.pos, ElseTokens(els))
    decreases |toks| - pos, 1
  {
    hide ParseIf, ParseBraces, AllProper, BraceTokens, BlockTree, LineTokens, LineTree, Proper, Stands;
    if Peek(toks, pos) != KwElse {
      els := Without;
      NothingStands(toks, pos);
    } else {
      NotAtEnd(toks, pos);
      One(toks, pos, KwElse);
      if Peek(toks, pos + 1) == KwIf {
        var s := IfText(toks, pos + 1, f);
        els := AnotherIf(s);
        Glue(toks, pos, pos + 1, ParseIf(toks, pos + 1, f).pos, [KwElse], LineTokens(s));
      } else {
        var body := BracesText(toks, pos + 1, f);
        els := Otherwise(body);
        Glue(toks, pos, pos + 1, ParseBraces(toks, pos + 1, f).pos, [KwElse], BraceTokens(body));
      }
    }
  }

  lemma {:induction false} InitText(toks: seq<Token>, pos: nat, f: nat) returns (init: Option<Line>)
    requires ParseInit(toks, pos, f).Ok?
    ensures var r := ParseInit(toks, pos, f);
            ProperInit(init) && InitTree(init, f) == r.tree && Stands(toks, pos, r.pos, InitTokens(init))
    decreases |toks| - pos, 2
  {
    hide ParseStmt, LineTokens, LineTree, Proper, Stands;
    if Peek(toks, pos) == Semicolon {
      init := None;
      NotAtEnd(toks, pos);
      One(toks, pos, Semicolon);
    } else {
      var l := StmtText(toks, pos, f);
      init := Some(l);
    }
  }

  lemma {:induction false} ForText(toks: seq<Token>, pos: nat, f: nat) returns (l: Line)
    requires Peek(toks, pos) == KwFor && ParseFor(toks, pos, f).Ok?
    ensures Writes(l, toks, pos, f, ParseFor(toks, pos, f))
    decreases |toks| - pos, 0
  {
    hide ParseInit, ParseOptional, ParseBraces, ParseFor, AllProper, BraceTokens, BlockTree, Stands, InitFuns, InitTokens, InitTree;
    hide ProperInit, MaybeOn, Maybe, MaybeTree;
    ForReads(toks, pos, f);
    NotAtEnd(toks, pos);
    NotAtEnd(toks, pos + 1);
    One(toks, pos, KwFor);
    One(toks, pos + 1, LeftParen);
    Glue(toks, pos, pos + 1, pos + 2, [KwFor], [LeftParen]);
    assert [KwFor] + [LeftParen] == [KwFor, LeftParen];
    var i := ParseInit(toks, pos + 2, f);
    var c := ParseOptional(toks, i.pos, Semicolon);
    var st := ParseOptional(toks, c.pos, RightParen);
    var g := f + |InitFuns(i.tree)|;
    var init := InitText(toks, pos + 2, f);
    var test := MaybeText(toks, i.pos, Semicolon);
    var step := MaybeText(toks, c.pos, RightParen);
    var body := BracesText(toks, st.pos, g);
    l := ForLine(init, test, step, body);
    Glue(toks, pos, pos + 2, i.pos, [KwFor, LeftParen], InitTokens(init));
    Glue(toks, pos, i.pos, c.pos, [KwFor, LeftParen] + InitTokens(init), Maybe(test) + [Semicolon]);
    Glue(toks, pos, c.pos, st.pos, [KwFor, LeftParen] + InitTokens(init) + (Maybe(test) + [Semicolon]), Maybe(step) + [RightParen]);
    Glue(toks, pos, st.pos, ParseBraces(toks, st.pos, g).pos,
         [KwFor, LeftParen] + InitTokens(init) + (Maybe(test) + [Semicolon]) + (Maybe(step) + [RightParen]), BraceTokens(body));
  }

  lemma {:induction false} TryText(toks: seq<Token>, pos: nat, f: nat) returns (l: Line)
    requires Peek(toks, pos) == KwTry && ParseTry(toks, pos, f).Ok?
    ensures Writes(l, toks, pos, f, ParseTry(toks, pos, f))
    decreases |toks| - pos, 0
  {
    hide ParseBraces, ParseTry, ParseCatchName, AllProper, BraceTokens, BlockTree, Stands, CatchTokens, BlockFuns;
    TryReads(toks, pos, f);
    NotAtEnd(toks, pos);
    One(toks, pos, KwTry);
    var b := ParseBraces(toks, pos + 1, f);
    NotAtEnd(toks, b.pos);
    One(toks, b.pos, KwCatch);
    var name := ParseCatchName(toks, b.pos + 1);
    var g := f + |BlockFuns(b.tree)|;
    var body := BracesText(toks, pos + 1, f);
    CatchText(toks, b.pos + 1);
    var handler := BracesText(toks, name.pos, g);
    l := TryLine(body, name.tree, handler);
    Glue(toks, pos, pos + 1, b.pos, [KwTry], BraceTokens(body));
    Glue(toks, pos, b.pos, b.pos + 1, [KwTry] + BraceTokens(body), [KwCatch]);
    Glue(toks, pos, b.pos + 1, name.pos, [KwTry] + BraceTokens(body) + [KwCatch], CatchTokens(name.tree));
    Glue(toks, pos, name.pos, ParseBraces(toks, name.pos, g).pos,
         [KwTry] + BraceTokens(body) + [KwCatch] + CatchTokens(name.tree), BraceTokens(handler));
  }

  lemma CatchText(toks: seq<Token>, pos: nat)
    requires pos <= |toks| && ParseCatchName(toks, pos).Ok?
    ensures var r := ParseCatchName(toks, pos); Stands(toks, pos, r.pos, CatchTokens(r.tree))
  {
    if Peek(toks, pos) == LeftParen {
      assert toks[pos..pos + 3] == [toks[pos], toks[pos + 1], toks[pos + 2]];
    }
  }

  lemma {:induction false} FunText(toks: seq<Token>, pos: nat, f: nat) returns (l: Line)
    requires Peek(toks, pos) == KwFunction && ParseFun(toks, pos, f).Ok?
    ensures Writes(l, toks, pos, f, ParseFun(toks, pos, f))
    decreases |toks| - pos, 0
  {
    hide ParseBraces, ParseFun, ParseParams, AllProper, BraceTokens, BlockTree, Stands, ParamTokens;
    FunReads(toks, pos, f);
    var x := Peek(toks, pos + 1).x;
    var head := [KwFunction, Ident(x), LeftParen];
    assert Stands(toks, pos, pos + 3, head) by { HeadStands(toks, pos, x); }
    var ps := ParseParams(toks, pos + 3, true);
    var comma := ParamsText(toks, pos + 3, true);
    var body := BracesText(toks, ps.pos, f);
    l := FunLine(x, ps.tree, comma, body);
    Glue(toks, pos, pos + 3, ps.pos, head, ParamTokens(ps.tree, true, comma));
    Glue(toks, pos, ps.pos, ParseBraces(toks, ps.pos, f).pos, head + ParamTokens(ps.tree, true, comma), BraceTokens(body));
  }

  lemma HeadStands(toks: seq<Token>, pos: nat, x: Name)
    requires Peek(toks, pos) == KwFunction && Peek(toks, pos + 1) == Ident(x) && Peek(toks, pos + 2) == LeftParen
    ensures Stands(toks, pos, pos + 3, [KwFunction, Ident(x), LeftParen])
  {
    assert toks[pos..pos + 3] == [toks[pos], toks[pos + 1], toks[pos + 2]];
  }

  // ----- modules -----

  /** Every text of a module is read as its tree. */
  lemma ModuleIsRead(ls: List<Line>)
    requires AllProper(ls)
    ensures ParseModule(BlockTokens(ls)) == Ok(BlockTree(ls, 0), |BlockTokens(ls)|)
  {
    hide AllProper, BlockTokens, BlockTree, ParseBlock;
    var toks := BlockTokens(ls);
    assert toks[0..|toks|] == toks;
    BlockReadsAs(ls, toks, 0, 0, Eof);
  }

  /** Whatever is read as a module is such a text, up to the end of the input. */
  lemma ReadIsModule(toks: seq<Token>) returns (ls: List<Line>)
    requires ParseModule(toks).Ok?
    ensures var r := ParseModule(toks);
            && AllProper(ls) && BlockTree(ls, 0) == r.tree && r.pos <= |toks| && toks[..r.pos] == BlockTokens(ls)
            && Peek(toks, r.pos) == Eof
  {
    hide AllProper, BlockTokens, BlockTree, ParseBlock;
    ls := BlockText(toks, 0, 0, Eof);
  }
}
