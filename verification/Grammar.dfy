/** The expressions of the language as a grammar of levels, each built from the next tighter
    one, with no numbers: the reader accepts exactly the texts of this grammar, and reads
    each as its one tree. */
module Grammar {
  import opened Syntax
  import opened Parser
  import opened Pratt

  /** A text with all its parentheses and commas. */
  datatype Text =
    | Lit(lit: Literal)
    | Word(x: Name)
    | Step(x: Name, up: bool)
    | Enclosed(t: Text)
    | Applied(f: Text, args: List<Text>, comma: bool)
    | Prefixed(uop: UnOp, t: Text)
    | Infixed(op: Token, l: Text, r: Text)
    | Assigned(x: Name, t: Text)
    | Updated(x: Name, bop: BinOp, t: Text)

  function Tokens(t: Text): seq<Token>
    decreases t, 0
  {
    match t
    case Lit(lit) => [LiteralTok(lit)]
    case Word(x) => [Ident(x)]
    case Step(x, up) => [Ident(x), if up then PlusPlus else MinusMinus]
    case Enclosed(t1) => [LeftParen] + Tokens(t1) + [RightParen]
    case Applied(f, args, comma) => Tokens(f) + [LeftParen] + ListTokens(args, true, comma)
    case Prefixed(op, t1) => [UnaryTok(op)] + Tokens(t1)
    case Infixed(op, l, r) => Tokens(l) + [op] + Tokens(r)
    case Assigned(x, t1) => [Ident(x), Equal] + Tokens(t1)
    case Updated(x, op, t1) => [Ident(x), OpEqual(op)] + Tokens(t1)
  }

  /** Arguments and the closing parenthesis; a comma may follow the last argument. */
  function ListTokens(ts: List<Text>, first: bool, comma: bool): seq<Token>
    decreases ts, 0
  {
    match ts
    case Nil => (if comma && !first then [Comma] else []) + [RightParen]
    case Cons(t, rest) => (if first then [] else [Comma]) + Tokens(t) + ListTokens(rest, false, comma)
  }

  function TreeOf(t: Text): Expr
    decreases t, 0
  {
    match t
    case Lit(lit) => Const(lit)
    case Word(x) => Var(x)
    case Step(x, up) => Bump(x, up)
    case Enclosed(t1) => TreeOf(t1)
    case Applied(f, args, _) => Call(TreeOf(f), TreesOf(args))
    case Prefixed(op, t1) => Unary(op, TreeOf(t1))
    case Infixed(op, l, r) => if op.BinTok? then Binary(op.op, TreeOf(l), TreeOf(r)) else Logic(op == AndAnd, TreeOf(l), TreeOf(r))
    case Assigned(x, t1) => Assign(x, TreeOf(t1))
    case Updated(x, op, t1) => OpAssign(x, op, TreeOf(t1))
  }

  function TreesOf(ts: List<Text>): List<Expr>
    decreases ts, 0
  {
    match ts
    case Nil => Nil
    case Cons(t, rest) => Cons(TreeOf(t), TreesOf(rest))
  }

  // ----- the levels -----

  datatype Level =
    | OrLevel | AndLevel | BarLevel | CaretLevel | AmpersandLevel | EqualityLevel | OrderLevel | SumLevel
    | ProductLevel | PrefixLevel | PowerLevel | CallLevel

  /** How many levels are tighter. */
  function Tighter(level: Level): nat {
    match level
    case OrLevel => 11
    case AndLevel => 10
    case BarLevel => 9
    case CaretLevel => 8
    case AmpersandLevel => 7
    case EqualityLevel => 6
    case OrderLevel => 5
    case SumLevel => 4
    case ProductLevel => 3
    case PrefixLevel => 2
    case PowerLevel => 1
    case CallLevel => 0
  }

  /** An assignment extends as far to the right as it can, so nothing can follow one. */
  predicate Closed(t: Text) {
    match t
    case Assigned(_, _) => false
    case Updated(_, _, _) => false
    case Prefixed(_, t1) => Closed(t1)
    case Infixed(_, _, r) => Closed(r)
    case _ => true
  }

  /** The grammar.  Operators of one level associate to the left, but `**` to the right; a
      prefix operator is looser than `**` and tighter than all others. */
  predicate On(t: Text, level: Level)
    decreases t, Tighter(level)
  {
    match level
    case OrLevel => Chain(t, {OrOr}, OrLevel, AndLevel) || On(t, AndLevel)
    case AndLevel => Chain(t, {AndAnd}, AndLevel, BarLevel) || On(t, BarLevel)
    case BarLevel => Chain(t, {BinTok(BitOr)}, BarLevel, CaretLevel) || On(t, CaretLevel)
    case CaretLevel => Chain(t, {BinTok(BitXor)}, CaretLevel, AmpersandLevel) || On(t, AmpersandLevel)
    case AmpersandLevel => Chain(t, {BinTok(BitAnd)}, AmpersandLevel, EqualityLevel) || On(t, EqualityLevel)
    case EqualityLevel => Chain(t, {BinTok(Eq), BinTok(Ne)}, EqualityLevel, OrderLevel) || On(t, OrderLevel)
    case OrderLevel =>
      Chain(t, {BinTok(Lt), BinTok(Le), BinTok(Gt), BinTok(Ge)}, OrderLevel, SumLevel) || On(t, SumLevel)
    case SumLevel => Chain(t, {BinTok(Add), BinTok(Sub)}, SumLevel, ProductLevel) || On(t, ProductLevel)
    case ProductLevel =>
      Chain(t, {BinTok(Mul), BinTok(Div), BinTok(Mod)}, ProductLevel, PrefixLevel) || On(t, PrefixLevel)
    case PrefixLevel => (t.Prefixed? && On(t.t, PrefixLevel)) || On(t, PowerLevel)
    case PowerLevel => Chain(t, {BinTok(Exp)}, CallLevel, PrefixLevel) || On(t, CallLevel)
    case CallLevel =>
      match t
      case Lit(_) => true
      case Word(_) => true
      case Step(_, _) => true
      case Enclosed(t1) => On(t1, OrLevel)
      case Applied(f, args, _) => On(f, CallLevel) && Closed(f) && AllOn(args)
      case Assigned(_, t1) => On(t1, OrLevel)
      case Updated(_, op, t1) => op in {Add, Sub, Mul, Exp, Div, Mod, BitAnd, BitOr, BitXor} && On(t1, OrLevel)
      case _ => false
  }

  /** One of the operators between operands of two levels. */
  predicate Chain(t: Text, ops: set<Token>, left: Level, right: Level)
    decreases t, 0
  {
    t.Infixed? && t.op in ops && On(t.l, left) && Closed(t.l) && On(t.r, right)
  }

  predicate AllOn(ts: List<Text>)
    decreases ts, 0
  {
    match ts
    case Nil => true
    case Cons(t, rest) => On(t, OrLevel) && AllOn(rest)
  }

  // ----- the levels and the binding powers -----

  function Power(level: Level): nat {
    match level
    case OrLevel => 2
    case AndLevel => 3
    case BarLevel => 4
    case CaretLevel => 5
    case AmpersandLevel => 6
    case EqualityLevel => 7
    case OrderLevel => 8
    case SumLevel => 10
    case ProductLevel => 11
    case PrefixLevel => 12
    case PowerLevel => 12
    case CallLevel => 13
  }

  function RightOf(op: Token): nat {
    if op.BinTok? then RightPower(op.op) else LogicPower(op == AndAnd)
  }

  /** What follows a text is no tighter than this. */
  function Limit(t: Text): nat {
    match t
    case Assigned(_, _) => 0
    case Updated(_, _, _) => 0
    case Prefixed(_, t1) => Min(UNARY_POWER, Limit(t1))
    case Infixed(op, _, r) => Min(RightOf(op), Limit(r))
    case _ => 13
  }

  function Reach(level: Level): nat {
    if level == CallLevel then 13 else if level == PrefixLevel || level == PowerLevel then 11 else Power(level)
  }

  /** The level of a text by its outermost operator. */
  function Own(t: Text): Level {
    match t
    case Prefixed(_, _) => PrefixLevel
    case Infixed(op, _, _) =>
      (match op
       case OrOr => OrLevel
       case AndAnd => AndLevel
       case BinTok(b) =>
         (match b
          case BitOr => BarLevel
          case BitXor => CaretLevel
          case BitAnd => AmpersandLevel
          case Eq => EqualityLevel
          case Ne => EqualityLevel
          case Lt => OrderLevel
          case Le => OrderLevel
          case Gt => OrderLevel
          case Ge => OrderLevel
          case Add => SumLevel
          case Sub => SumLevel
          case Mul => ProductLevel
          case Div => ProductLevel
          case Mod => ProductLevel
          case Exp => PowerLevel)
       case _ => CallLevel)
    case _ => CallLevel
  }

  /** The level of the right operands. */
  function Next(level: Level): Level {
    match level
    case OrLevel => AndLevel
    case AndLevel => BarLevel
    case BarLevel => CaretLevel
    case CaretLevel => AmpersandLevel
    case AmpersandLevel => EqualityLevel
    case EqualityLevel => OrderLevel
    case OrderLevel => SumLevel
    case SumLevel => ProductLevel
    case ProductLevel => PrefixLevel
    case PrefixLevel => PrefixLevel
    case PowerLevel => PrefixLevel
    case CallLevel => CallLevel
  }

  function LeftLevel(level: Level): Level { if level == PowerLevel then CallLevel else level }

  /** A text of any level is made of the operands that its own level asks for. */
  lemma {:induction false} OwnLevel(t: Text, level: Level)
    requires On(t, level)
    ensures On(t, Own(t)) && Tighter(Own(t)) <= Tighter(level)
    ensures t.Infixed? ==>
              && (t.op.BinTok? || t.op == AndAnd || t.op == OrOr)
              && On(t.l, LeftLevel(Own(t))) && Closed(t.l) && On(t.r, Next(Own(t)))
    ensures t.Prefixed? ==> On(t.t, PrefixLevel)
    decreases Tighter(level)
  {
    if level == CallLevel {
    } else if On(t, Below(level)) {
      OwnLevel(t, Below(level));
    } else if level == PrefixLevel {
    } else {
      ChainOwn(t, level);
    }
  }

  /** The next tighter level. */
  function Below(level: Level): Level
    requires level != CallLevel
  {
    if level == PrefixLevel then PowerLevel else if level == PowerLevel then CallLevel else Next(level)
  }

  lemma ChainOwn(t: Text, level: Level)
    requires level != CallLevel && level != PrefixLevel && On(t, level) && !On(t, Below(level))
    ensures t.Infixed? && Own(t) == level && (t.op.BinTok? || t.op == AndAnd || t.op == OrOr)
    ensures On(t.l, LeftLevel(level)) && Closed(t.l) && On(t.r, Next(level))
  {
  }

  /** A text of a level is one of every looser level. */
  lemma {:induction false} OnLooser(t: Text, level: Level, looser: Level)
    requires On(t, level) && Tighter(level) <= Tighter(looser)
    ensures On(t, looser)
    decreases Tighter(looser)
  {
    if level != looser {
      OnLooser(t, level, Below(looser));
    }
  }

  /** What the powers are to the levels. */
  lemma OwnPower(t: Text, level: Level)
    requires On(t, level) && t.Infixed?
    ensures Lbp(t.op) == Power(Own(t)) >= Power(level) && !AssignLike(t.op)
    ensures RightOf(t.op) == Reach(Own(t)) <= UNARY_POWER && RightOf(t.op) < Power(Next(Own(t)))
    ensures Power(Own(t)) <= Reach(LeftLevel(Own(t))) && Power(Own(t)) <= Power(LeftLevel(Own(t)))
  {
    hide On;
    OwnLevel(t, level);
    OwnOperator(t);
  }

  lemma OwnOperator(t: Text)
    requires t.Infixed? && On(t, Own(t))
    ensures t.op.BinTok? || t.op == AndAnd || t.op == OrOr
  {
    OwnLevel(t, Own(t));
  }

  /** A closed text of a level may be followed by operators up to that level. */
  lemma {:induction false} LimitReaches(t: Text, level: Level)
    requires On(t, level) && Closed(t)
    ensures Limit(t) >= Reach(level)
    decreases t
  {
    hide On;
    OwnLevel(t, level);
    match t
    case Prefixed(_, t1) => LimitReaches(t1, PrefixLevel);
    case Infixed(op, _, r) =>
      OwnPower(t, level);
      LimitReaches(r, Next(Own(t)));
    case _ =>
  }

  // ----- every text is read as its tree -----

  lemma {:induction false} TextRead(t: Text, level: Level, toks: seq<Token>, pos: nat, rbp: nat)
    requires On(t, level) && Reads(toks, pos, Tokens(t)) && rbp < Power(level) && rbp <= UNARY_POWER
    requires Stops(Peek(toks, pos + |Tokens(t)|), Limit(t))
    ensures ParseInner(toks, pos, rbp) == ParseLoop(toks, pos + |Tokens(t)|, rbp, TreeOf(t))
    decreases t, 2
  {
    hide On, Reads, ParseInner, ParseLoop, ParseNud, ListTokens, AllOn, Own, Closed, Power, RightOf;
    match t
    case Enclosed(t1) =>
      InnerLevel(t, level);
      EnclosedRead(t1, toks, pos, rbp);
    case Applied(f, args, comma) =>
      InnerLevel(t, level);
      AppliedRead(f, args, comma, toks, pos, rbp);
    case Prefixed(op, t1) =>
      InnerLevel(t, level);
      PrefixedRead(op, t1, toks, pos, rbp);
    case Infixed(_, _, _) => InfixedRead(t, level, toks, pos, rbp);
    case Assigned(x, t1) =>
      InnerLevel(t, level);
      AssignedRead(x, Equal, t1, toks, pos, rbp);
    case Updated(x, op, t1) =>
      InnerLevel(t, level);
      AssignedRead(x, OpEqual(op), t1, toks, pos, rbp);
    case _ => AtomRead(t, toks, pos, rbp);
  }

  /** The levels of the parts of a text without infix operator. */
  lemma InnerLevel(t: Text, level: Level)
    requires On(t, level)
    ensures match t
            case Enclosed(t1) => On(t1, OrLevel)
            case Applied(f, args, _) => On(f, CallLevel) && Closed(f) && AllOn(args)
            case Prefixed(_, t1) => On(t1, PrefixLevel)
            case Assigned(_, t1) => On(t1, OrLevel)
            case Updated(_, op, t1) => CompoundOp(OpEqual(op)).Some? && On(t1, OrLevel)
            case _ => true
  {
    OwnLevel(t, level);
  }

  lemma AtomRead(t: Text, toks: seq<Token>, pos: nat, rbp: nat)
    requires (t.Lit? || t.Word? || t.Step?) && Reads(toks, pos, Tokens(t)) && !AssignLike(Peek(toks, pos + |Tokens(t)|))
    ensures ParseInner(toks, pos, rbp) == ParseLoop(toks, pos + |Tokens(t)|, rbp, TreeOf(t))
  {
    hide ParseInner, ParseLoop, ParseNud;
    ReadsOne(toks, pos, Tokens(t), 0);
    match t {
      case Lit(lit) => NudConst(toks, pos, lit);
      case Word(x) => NudName(toks, pos, x);
      case Step(x, up) =>
        ReadsOne(toks, pos, Tokens(t), 1);
        NudName(toks, pos, x);
    }
    InnerIs(toks, pos, rbp, TreeOf(t), pos + |Tokens(t)|);
  }

  /** A text that is the whole of what is read with some power. */
  lemma {:induction false} WholeRead(t: Text, level: Level, toks: seq<Token>, pos: nat, rbp: nat)
    requires On(t, level) && Reads(toks, pos, Tokens(t)) && rbp < Power(level) && rbp <= UNARY_POWER
    requires Stops(Peek(toks, pos + |Tokens(t)|), Min(rbp, Limit(t)))
    ensures ParseInner(toks, pos, rbp) == Ok(TreeOf(t), pos + |Tokens(t)|)
    decreases t, 3
  {
    hide On, ParseInner, ParseLoop;
    TextRead(t, level, toks, pos, rbp);
    LoopStops(toks, pos + |Tokens(t)|, rbp, TreeOf(t));
  }

  lemma EnclosedParts(toks: seq<Token>, pos: nat, part: seq<Token>)
    requires Reads(toks, pos, [LeftParen] + part + [RightParen])
    ensures Peek(toks, pos) == LeftParen && Reads(toks, pos + 1, part) && Peek(toks, pos + 1 + |part|) == RightParen
    ensures pos + |part| + 2 <= |toks|
  {
    ReadsSplit(toks, pos, [LeftParen] + part, [RightParen]);
    ReadsSplit(toks, pos, [LeftParen], part);
    ReadsOne(toks, pos, [LeftParen], 0);
    ReadsOne(toks, pos + 1 + |part|, [RightParen], 0);
  }

  lemma {:induction false} EnclosedRead(t: Text, toks: seq<Token>, pos: nat, rbp: nat)
    requires On(t, OrLevel) && Reads(toks, pos, [LeftParen] + Tokens(t) + [RightParen])
    ensures ParseInner(toks, pos, rbp) == ParseLoop(toks, pos + |Tokens(t)| + 2, rbp, TreeOf(t))
    decreases t, 4
  {
    hide On, Reads, ParseInner, ParseLoop, ParseNud, Limit;
    var end := pos + 1 + |Tokens(t)|;
    EnclosedParts(toks, pos, Tokens(t));
    WholeRead(t, OrLevel, toks, pos + 1, 0);
    NudParens(toks, pos, TreeOf(t), end);
    InnerIs(toks, pos, rbp, TreeOf(t), end + 1);
  }

  lemma {:induction false} PrefixedRead(op: UnOp, t: Text, toks: seq<Token>, pos: nat, rbp: nat)
    requires On(t, PrefixLevel) && Reads(toks, pos, [UnaryTok(op)] + Tokens(t))
    requires Stops(Peek(toks, pos + 1 + |Tokens(t)|), Min(UNARY_POWER, Limit(t)))
    ensures ParseInner(toks, pos, rbp) == ParseLoop(toks, pos + 1 + |Tokens(t)|, rbp, Unary(op, TreeOf(t)))
    decreases t, 4
  {
    hide On, ParseInner, ParseLoop, ParseNud, Limit;
    var end := pos + 1 + |Tokens(t)|;
    ReadsSplit(toks, pos, [UnaryTok(op)], Tokens(t));
    ReadsOne(toks, pos, [UnaryTok(op)], 0);
    WholeRead(t, PrefixLevel, toks, pos + 1, UNARY_POWER);
    NudUnary(toks, pos, op, TreeOf(t), end);
    InnerIs(toks, pos, rbp, Unary(op, TreeOf(t)), end);
  }

  lemma {:induction false} AssignedRead(x: Name, tok: Token, t: Text, toks: seq<Token>, pos: nat, rbp: nat)
    requires On(t, OrLevel) && Reads(toks, pos, [Ident(x), tok] + Tokens(t)) && (tok == Equal || CompoundOp(tok).Some?)
    requires Stops(Peek(toks, pos + 2 + |Tokens(t)|), 0)
    ensures ParseInner(toks, pos, rbp)
         == ParseLoop(toks, pos + 2 + |Tokens(t)|, rbp, if tok == Equal then Assign(x, TreeOf(t)) else OpAssign(x, tok.op, TreeOf(t)))
    decreases t, 4
  {
    hide On, ParseInner, ParseLoop, ParseNud, Limit;
    var end, e := pos + 2 + |Tokens(t)|, if tok == Equal then Assign(x, TreeOf(t)) else OpAssign(x, tok.op, TreeOf(t));
    ReadsSplit(toks, pos, [Ident(x), tok], Tokens(t));
    ReadsOne(toks, pos, [Ident(x), tok], 0);
    ReadsOne(toks, pos, [Ident(x), tok], 1);
    WholeRead(t, OrLevel, toks, pos + 2, 0);
    NudAssign(toks, pos, x, tok, TreeOf(t), end);
    InnerIs(toks, pos, rbp, e, end);
  }

  lemma InfixParts(toks: seq<Token>, pos: nat, left: seq<Token>, op: Token, right: seq<Token>)
    requires Reads(toks, pos, left + [op] + right)
    ensures Reads(toks, pos, left) && Peek(toks, pos + |left|) == op && Reads(toks, pos + |left| + 1, right)
    ensures pos + |left| + 1 + |right| <= |toks|
  {
    ReadsSplit(toks, pos, left + [op], right);
    ReadsSplit(toks, pos, left, [op]);
    ReadsOne(toks, pos + |left|, [op], 0);
  }

  lemma {:induction false} InfixedRead(t: Text, level: Level, toks: seq<Token>, pos: nat, rbp: nat)
    requires On(t, level) && t.Infixed? && Reads(toks, pos, Tokens(t)) && rbp < Power(level) && rbp <= UNARY_POWER
    requires Stops(Peek(toks, pos + |Tokens(t)|), Limit(t))
    ensures ParseInner(toks, pos, rbp) == ParseLoop(toks, pos + |Tokens(t)|, rbp, TreeOf(t))
    decreases t, 0
  {
    hide On, Reads, ParseInner, ParseLoop, ParseLed, Own, Power, Reach, RightOf, LeftLevel, Next, Tokens, TreeOf, Limit, Closed;
    var l, r, op := t.l, t.r, t.op;
    InfixShape(t);
    OwnLevel(t, level);
    OwnPower(t, level);
    LimitReaches(l, LeftLevel(Own(t)));
    InfixParts(toks, pos, Tokens(l), op, Tokens(r));
    var mid, end := pos + |Tokens(l)|, pos + |Tokens(t)|;
    TextRead(l, LeftLevel(Own(t)), toks, pos, rbp);
    WholeRead(r, Next(Own(t)), toks, mid + 1, RightOf(op));
    InfixLed(toks, mid, op, TreeOf(l), TreeOf(r), end);
    LoopIs(toks, mid, rbp, TreeOf(l), TreeOf(t), end);
  }

  lemma InfixShape(t: Text)
    requires t.Infixed?
    ensures Tokens(t) == Tokens(t.l) + [t.op] + Tokens(t.r) && Limit(t) == Min(RightOf(t.op), Limit(t.r))
    ensures TreeOf(t) == if t.op.BinTok? then Binary(t.op.op, TreeOf(t.l), TreeOf(t.r)) else Logic(t.op == AndAnd, TreeOf(t.l), TreeOf(t.r))
  {
  }

  lemma InfixLed(toks: seq<Token>, mid: nat, op: Token, l: Expr, r: Expr, end: nat)
    requires Peek(toks, mid) == op && (op.BinTok? || op == AndAnd || op == OrOr) && ParseInner(toks, mid + 1, RightOf(op)) == Ok(r, end)
    ensures ParseLed(toks, mid, l) == Ok(if op.BinTok? then Binary(op.op, l, r) else Logic(op == AndAnd, l, r), end)
  {
    hide ParseInner;
  }

  lemma {:induction false} AppliedRead(f: Text, args: List<Text>, comma: bool, toks: seq<Token>, pos: nat, rbp: nat)
    requires On(f, CallLevel) && Closed(f) && AllOn(args) && rbp <= UNARY_POWER
    requires Reads(toks, pos, Tokens(f) + [LeftParen] + ListTokens(args, true, comma))
    ensures ParseInner(toks, pos, rbp)
         == ParseLoop(toks, pos + |Tokens(f)| + 1 + |ListTokens(args, true, comma)|, rbp, Call(TreeOf(f), TreesOf(args)))
    decreases Applied(f, args, comma), 0
  {
    hide On, AllOn, Reads, ParseInner, ParseLoop, ParseLed, ListTokens, Tokens, TreeOf, TreesOf, Limit, Closed;
    var rest := ListTokens(args, true, comma);
    var mid := pos + |Tokens(f)|;
    var end := mid + 1 + |rest|;
    InfixParts(toks, pos, Tokens(f), LeftParen, rest);
    LimitReaches(f, CallLevel);
    TextRead(f, CallLevel, toks, pos, rbp);
    ListRead(args, toks, mid + 1, true, comma);
    LedCall(toks, mid, TreeOf(f), TreesOf(args), end);
    LoopIs(toks, mid, rbp, TreeOf(f), Call(TreeOf(f), TreesOf(args)), end);
  }

  lemma {:induction false} ListRead(ts: List<Text>, toks: seq<Token>, pos: nat, first: bool, comma: bool)
    requires AllOn(ts) && Reads(toks, pos, ListTokens(ts, first, comma))
    ensures ParseArgs(toks, pos, first) == Ok(TreesOf(ts), pos + |ListTokens(ts, first, comma)|)
    decreases ts, 0
  {
    hide On, ParseInner, ParseArgs, ParseExpr, Reads, Stops, Limit;
    match ts
    case Nil => ListEnds(toks, pos, first, comma);
    case Cons(t, rest) =>
      var sep: seq<Token> := if first then [] else [Comma];
      var arg, more := Tokens(t), ListTokens(rest, false, comma);
      ReadsSplit(toks, pos, sep + arg, more);
      ReadsSplit(toks, pos, sep, arg);
      if !first {
        ReadsOne(toks, pos, sep, 0);
      }
      TokensStart(t, OrLevel);
      ReadsOne(toks, pos + |sep|, arg, 0);
      var at, end := pos + |sep|, pos + |sep| + |arg|;
      ListRead(rest, toks, end, false, comma);
      AfterItem(rest, comma, toks, end);
      StopsLess(Peek(toks, end), Limit(t));
      WholeRead(t, OrLevel, toks, at, 0);
      ArgsIs(toks, pos, first, TreeOf(t), TreesOf(rest), end, pos + |ListTokens(ts, first, comma)|);
  }

  lemma StopsLess(t: Token, limit: nat)
    requires Stops(t, 0)
    ensures Stops(t, Min(0, limit)) && Stops(t, limit)
  {
  }

  lemma ListEnds(toks: seq<Token>, pos: nat, first: bool, comma: bool)
    requires Reads(toks, pos, ListTokens(Nil, first, comma))
    ensures ParseArgs(toks, pos, first) == Ok(Nil, pos + |ListTokens(Nil, first, comma)|)
  {
    var part := ListTokens(Nil, first, comma);
    ReadsOne(toks, pos, part, 0);
    ReadsOne(toks, pos, part, |part| - 1);
  }

  lemma AfterItem(rest: List<Text>, comma: bool, toks: seq<Token>, pos: nat)
    requires Reads(toks, pos, ListTokens(rest, false, comma))
    ensures Stops(Peek(toks, pos), 0)
  {
    var part := ListTokens(rest, false, comma);
    ReadsOne(toks, pos, part, 0);
  }

  predicate StartsExpr(t: Token) { t.Ident? || LiteralOf(t).Some? || t == LeftParen || UnaryOf(t).Some? }

  lemma {:induction false} TokensStart(t: Text, level: Level)
    requires On(t, level)
    ensures |Tokens(t)| > 0 && StartsExpr(Tokens(t)[0])
    decreases t
  {
    hide On;
    OwnLevel(t, level);
    match t
    case Infixed(_, l, _) => TokensStart(l, LeftLevel(Own(t)));
    case Applied(f, _, _) =>
      AppliedOn(t);
      TokensStart(f, CallLevel);
    case _ =>
  }

  lemma AppliedOn(t: Text)
    requires t.Applied? && On(t, Own(t))
    ensures On(t.f, CallLevel)
  {
  }

  // ----- everything that is read is a text -----

  /** The loosest level whose operators are tighter than `rbp`. */
  function Above(rbp: nat): Level {
    if rbp < 2 then OrLevel
    else if rbp < 3 then AndLevel
    else if rbp < 4 then BarLevel
    else if rbp < 5 then CaretLevel
    else if rbp < 6 then AmpersandLevel
    else if rbp < 7 then EqualityLevel
    else if rbp < 8 then OrderLevel
    else if rbp < 10 then SumLevel
    else if rbp < 11 then ProductLevel
    else PrefixLevel
  }

  /** `t` is the text from `pos` to `p`, its tree is `e`, and what follows is no tighter than
      its end allows. */
  ghost predicate Spells(t: Text, toks: seq<Token>, pos: nat, p: nat, e: Expr) {
    && pos <= p <= |toks| && Tokens(t) == toks[pos..p] && TreeOf(t) == e && Lbp(Peek(toks, p)) <= Limit(t)
  }

  lemma OpenLimit(t: Text)
    requires Limit(t) > 0
    ensures Closed(t)
  {
  }

  lemma TightestLbp(t: Token)
    ensures Lbp(t) <= 13
  {
  }

  lemma {:induction false} InnerText(toks: seq<Token>, pos: nat, rbp: nat) returns (t: Text)
    requires ParseInner(toks, pos, rbp).Ok? && rbp <= UNARY_POWER
    ensures var r := ParseInner(toks, pos, rbp);
            Spells(t, toks, pos, r.pos, r.tree) && Lbp(Peek(toks, r.pos)) <= rbp
    ensures On(t, Above(rbp))
    decreases |toks| - pos, 3
  {
    hide ParseNud, ParseLoop, On, Spells, Own;
    var n := ParseNud(toks, pos);
    var t1 := NudText(toks, pos);
    OnLooser(t1, PrefixLevel, Above(rbp));
    t := LoopText(toks, pos, n.pos, rbp, n.tree, t1);
  }

  lemma {:induction false} ExprText(toks: seq<Token>, pos: nat) returns (t: Text)
    requires ParseExpr(toks, pos).Ok?
    ensures var r := ParseExpr(toks, pos); Spells(t, toks, pos, r.pos, r.tree) && Lbp(Peek(toks, r.pos)) <= 0
    ensures On(t, OrLevel)
    decreases |toks| - pos, 4
  {
    hide ParseInner, On, Spells;
    t := InnerText(toks, pos, 0);
  }

  lemma {:induction false} NudText(toks: seq<Token>, pos: nat) returns (t: Text)
    requires ParseNud(toks, pos).Ok?
    ensures var r := ParseNud(toks, pos); Spells(t, toks, pos, r.pos, r.tree)
    ensures On(t, PrefixLevel)
    decreases |toks| - pos, 1
  {
    hide ParseInner, ParseExpr, ParseIdent, On;
    var tok, r := Peek(toks, pos), ParseNud(toks, pos);
    TightestLbp(Peek(toks, r.pos));
    if tok.Ident? {
      t := IdentText(toks, pos, tok.x);
    } else if LiteralOf(tok).Some? {
      t := Lit(LiteralOf(tok).value);
      LiteralText(toks, pos, t);
    } else if tok == LeftParen {
      var t1 := ExprText(toks, pos + 1);
      t := Enclosed(t1);
      EnclosedOn(t1);
      assert toks[pos..r.pos] == [LeftParen] + toks[pos + 1..r.pos - 1] + [RightParen];
    } else {
      var t1 := InnerText(toks, pos + 1, UNARY_POWER);
      t := Prefixed(UnaryOf(tok).value, t1);
      PrefixedOn(UnaryOf(tok).value, t1);
      assert toks[pos..r.pos] == [tok] + toks[pos + 1..r.pos];
    }
  }

  lemma LiteralText(toks: seq<Token>, pos: nat, t: Text)
    requires pos < |toks| && LiteralOf(toks[pos]).Some? && t == Lit(LiteralOf(toks[pos]).value)
    ensures Tokens(t) == toks[pos..pos + 1] && On(t, PrefixLevel)
  {
  }

  lemma EnclosedOn(t: Text)
    requires On(t, OrLevel)
    ensures On(Enclosed(t), PrefixLevel)
  {
    OnLooser(Enclosed(t), CallLevel, PrefixLevel);
  }

  lemma PrefixedOn(op: UnOp, t: Text)
    requires On(t, PrefixLevel)
    ensures On(Prefixed(op, t), PrefixLevel)
  {
  }

  lemma {:induction false} IdentText(toks: seq<Token>, pos: nat, x: Name) returns (t: Text)
    requires pos < |toks| && toks[pos] == Ident(x) && ParseIdent(toks, pos, x).Ok?
    ensures var r := ParseIdent(toks, pos, x); Spells(t, toks, pos, r.pos, r.tree)
    ensures On(t, PrefixLevel)
    decreases |toks| - pos, 0
  {
    hide ParseExpr, On;
    var tok, r := Peek(toks, pos + 1), ParseIdent(toks, pos, x);
    TightestLbp(Peek(toks, r.pos));
    if CompoundOp(tok).Some? || tok == Equal {
      var t1 := ExprText(toks, pos + 2);
      t := if tok == Equal then Assigned(x, t1) else Updated(x, tok.op, t1);
      AssignedOn(x, tok, t1);
      assert toks[pos..r.pos] == [toks[pos], tok] + toks[pos + 2..r.pos];
    } else if tok == PlusPlus || tok == MinusMinus {
      t := Step(x, tok == PlusPlus);
      NamesOn(x, tok == PlusPlus);
    } else {
      t := Word(x);
      NamesOn(x, true);
    }
  }

  lemma AssignedOn(x: Name, tok: Token, t: Text)
    requires On(t, OrLevel) && (tok == Equal || CompoundOp(tok).Some?)
    ensures On(if tok == Equal then Assigned(x, t) else Updated(x, tok.op, t), PrefixLevel)
  {
    OnLooser(if tok == Equal then Assigned(x, t) else Updated(x, tok.op, t), CallLevel, PrefixLevel);
  }

  lemma NamesOn(x: Name, up: bool)
    ensures On(Step(x, up), PrefixLevel) && On(Word(x), PrefixLevel)
  {
    OnLooser(Step(x, up), CallLevel, PrefixLevel);
    OnLooser(Word(x), CallLevel, PrefixLevel);
  }

  lemma {:induction false} LoopText(toks: seq<Token>, pos: nat, p: nat, rbp: nat, left: Expr, tl: Text) returns (t: Text)
    requires p <= |toks| && ParseLoop(toks, p, rbp, left).Ok? && rbp <= UNARY_POWER
    requires Spells(tl, toks, pos, p, left) && On(tl, Above(rbp))
    ensures var r := ParseLoop(toks, p, rbp, left);
            Spells(t, toks, pos, r.pos, r.tree) && Lbp(Peek(toks, r.pos)) <= rbp
    ensures On(t, Above(rbp))
    decreases |toks| - p, 2
  {
    hide ParseLed, On, Spells, Above;
    t := tl;
    if rbp < Lbp(Peek(toks, p)) {
      var d := ParseLed(toks, p, left);
      var t1 := LedText(toks, pos, p, rbp, left, tl);
      t := LoopText(toks, pos, d.pos, rbp, d.tree, t1);
    }
  }

  lemma {:induction false} LedText(toks: seq<Token>, pos: nat, p: nat, rbp: nat, left: Expr, tl: Text) returns (t: Text)
    requires p <= |toks| && ParseLed(toks, p, left).Ok? && rbp <= UNARY_POWER && rbp < Lbp(Peek(toks, p))
    requires Spells(tl, toks, pos, p, left) && On(tl, Above(rbp))
    ensures var r := ParseLed(toks, p, left); Spells(t, toks, pos, r.pos, r.tree)
    ensures On(t, Above(rbp))
    decreases |toks| - p, 1
  {
    hide ParseInner, ParseArgs, On, Own, Above;
    var tok, r := Peek(toks, p), ParseLed(toks, p, left);
    TightestLbp(Peek(toks, r.pos));
    OpenLimit(tl);
    if tok == LeftParen {
      var args, comma := ArgsText(toks, p + 1, true);
      t := Applied(tl, args, comma);
      AppliedFits(tl, args, comma, Above(rbp));
      assert toks[pos..r.pos] == toks[pos..p] + [LeftParen] + toks[p + 1..r.pos];
    } else {
      var tr := InnerText(toks, p + 1, RightOf(tok));
      t := Infixed(tok, tl, tr);
      InfixedFits(tl, tok, tr, rbp);
      assert toks[pos..r.pos] == toks[pos..p] + [tok] + toks[p + 1..r.pos];
    }
  }

  /** A text whose end allows an operator is on the level of its left operands. */
  lemma LeftFits(t: Text, level: Level, own: Level)
    requires On(t, level) && Limit(t) >= Power(own) && own != PrefixLevel
    ensures On(t, LeftLevel(own)) && Closed(t)
  {
    hide On;
    OpenLimit(t);
    OwnLevel(t, level);
    if t.Infixed? {
      OwnPower(t, level);
    }
    OnLooser(t, Own(t), LeftLevel(own));
  }

  lemma AppliedFits(f: Text, args: List<Text>, comma: bool, level: Level)
    requires On(f, level) && Limit(f) >= 13 && AllOn(args)
    ensures On(Applied(f, args, comma), level)
  {
    hide AllOn;
    LeftFits(f, level, CallLevel);
    OnLooser(Applied(f, args, comma), CallLevel, level);
  }

  lemma InfixedFits(l: Text, op: Token, r: Text, rbp: nat)
    requires op.BinTok? || op == AndAnd || op == OrOr
    requires On(l, Above(rbp)) && rbp < Lbp(op) <= Limit(l) && On(r, Above(RightOf(op)))
    ensures On(Infixed(op, l, r), Above(rbp))
  {
    hide On;
    var t := Infixed(op, l, r);
    OperatorPower(op, l, r);
    LeftFits(l, Above(rbp), Own(t));
    InfixedOwn(op, l, r);
    OnLooser(t, Own(t), Above(rbp));
  }

  lemma OperatorPower(op: Token, l: Text, r: Text)
    requires op.BinTok? || op == AndAnd || op == OrOr
    ensures var own := Own(Infixed(op, l, r));
            own != PrefixLevel && Lbp(op) == Power(own) && Above(RightOf(op)) == Next(own)
    ensures forall rbp: nat :: rbp < Lbp(op) ==> Tighter(Own(Infixed(op, l, r))) <= Tighter(Above(rbp))
  {
  }

  lemma InfixedOwn(op: Token, l: Text, r: Text)
    requires op.BinTok? || op == AndAnd || op == OrOr
    requires var own := Own(Infixed(op, l, r)); On(l, LeftLevel(own)) && Closed(l) && On(r, Next(own))
    ensures On(Infixed(op, l, r), Own(Infixed(op, l, r)))
  {
  }

  lemma {:induction false} ArgsText(toks: seq<Token>, pos: nat, first: bool) returns (ts: List<Text>, comma: bool)
    requires ParseArgs(toks, pos, first).Ok?
    ensures var r := ParseArgs(toks, pos, first);
            pos <= r.pos <= |toks| && ListTokens(ts, first, comma) == toks[pos..r.pos] && TreesOf(ts) == r.tree
    ensures AllOn(ts)
    decreases |toks| - pos, 5
  {
    hide ParseExpr, On, Tokens, TreeOf, Limit;
    var r := ParseArgs(toks, pos, first);
    if Peek(toks, pos) == RightParen {
      ts, comma := Nil, false;
    } else if !first && Peek(toks, pos + 1) == RightParen {
      ts, comma := Nil, true;
    } else {
      var at := if first then pos else pos + 1;
      var e := ParseExpr(toks, at);
      var t := ExprText(toks, at);
      var rest, more := ArgsText(toks, e.pos, false);
      ts, comma := Cons(t, rest), more;
      assert toks[pos..at] == if first then [] else [Comma];
      ThreeParts(toks, pos, at, e.pos, r.pos);
    }
  }

  lemma ThreeParts(toks: seq<Token>, a: nat, b: nat, c: nat, d: nat)
    requires a <= b <= c <= d <= |toks|
    ensures toks[a..d] == toks[a..b] + toks[b..c] + toks[c..d]
  {
  }

  // ----- the grammar is what is read -----

  predicate EndsExpr(t: Token) { t in {Semicolon, RightParen, Comma, Eof} }

  /** Every text of the grammar, in front of a token that ends an expression, is read as its
      tree. */
  lemma TextIsRead(t: Text, before: seq<Token>, after: seq<Token>)
    requires On(t, OrLevel) && EndsExpr(Peek(after, 0))
    ensures ParseExpr(before + Tokens(t) + after, |before|) == Ok(TreeOf(t), |before| + |Tokens(t)|)
  {
    hide On, ParseExpr, Tokens, TreeOf, Reads, Peek, EndsExpr;
    var part := Tokens(t);
    ReadsMiddle(before, part, after);
    var toks := before + part + after;
    ReadHere(t, toks, |before|, part);
    var r := ParseExpr(toks, |before|);
    assert r == Ok(TreeOf(t), |before| + |part|);
    assert ParseExpr(before + Tokens(t) + after, |before|) == r;
  }

  lemma ReadHere(t: Text, toks: seq<Token>, pos: nat, part: seq<Token>)
    requires On(t, OrLevel) && part == Tokens(t) && Reads(toks, pos, part) && EndsExpr(Peek(toks, pos + |part|))
    ensures ParseExpr(toks, pos) == Ok(TreeOf(t), pos + |part|)
  {
    hide On, ParseInner, ParseExpr, Limit, Tokens, TreeOf, Reads, Stops, Peek, EndsExpr;
    Ends(Peek(toks, pos + |part|));
    StopsLess(Peek(toks, pos + |part|), Limit(t));
    WholeRead(t, OrLevel, toks, pos, 0);
    ExprIsInner(toks, pos);
  }

  lemma Ends(t: Token)
    requires EndsExpr(t)
    ensures Stops(t, 0)
  {
  }

  /** Whatever is read is such a text, and its tree is what is read. */
  lemma ReadIsText(toks: seq<Token>, pos: nat) returns (t: Text)
    requires ParseExpr(toks, pos).Ok?
    ensures var r := ParseExpr(toks, pos);
            pos <= r.pos <= |toks| && On(t, OrLevel) && Tokens(t) == toks[pos..r.pos] && TreeOf(t) == r.tree
  {
    t := ExprText(toks, pos);
  }

  /** The words of the language, one by one. */
  lemma Literals(n: int, id: Name)
    ensures ParseExpr([TrueTok, Semicolon], 0) == Ok(Const(TrueLit), 1) && ParseExpr([FalseTok, Semicolon], 0) == Ok(Const(FalseLit), 1)
    ensures ParseExpr([NullTok, Semicolon], 0) == Ok(Const(NullLit), 1)
    ensures ParseExpr([IntTok(n), Semicolon], 0) == Ok(Const(IntLit(n)), 1) && ParseExpr([StrTok(id), Semicolon], 0) == Ok(Const(StrLit(id)), 1)
  {
    AloneRead(TrueTok, TrueLit);
    AloneRead(FalseTok, FalseLit);
    AloneRead(NullTok, NullLit);
    AloneRead(IntTok(n), IntLit(n));
    AloneRead(StrTok(id), StrLit(id));
  }

  lemma AloneRead(t: Token, lit: Literal)
    requires LiteralTok(lit) == t
    ensures ParseExpr([t, Semicolon], 0) == Ok(Const(lit), 1)
  {
    OnLooser(Lit(lit), CallLevel, OrLevel);
    TextIsRead(Lit(lit), [], [Semicolon]);
    assert [] + Tokens(Lit(lit)) + [Semicolon] == [t, Semicolon];
  }

  lemma Prefixes(x: Name)
    ensures ParseExpr([BinTok(Sub), Ident(x), Semicolon], 0) == Ok(Unary(Neg, Var(x)), 2)
    ensures ParseExpr([Bang, Ident(x), Semicolon], 0) == Ok(Unary(Not, Var(x)), 2)
    ensures ParseExpr([Tilde, Ident(x), Semicolon], 0) == Ok(Unary(BitNot, Var(x)), 2)
  {
    BeforeName(BinTok(Sub), Neg, x);
    BeforeName(Bang, Not, x);
    BeforeName(Tilde, BitNot, x);
  }

  lemma BeforeName(t: Token, op: UnOp, x: Name)
    requires UnaryTok(op) == t
    ensures ParseExpr([t, Ident(x), Semicolon], 0) == Ok(Unary(op, Var(x)), 2)
  {
    var text := Prefixed(op, Word(x));
    NamesOn(x, true);
    PrefixedOn(op, Word(x));
    OnLooser(text, PrefixLevel, OrLevel);
    TextIsRead(text, [], [Semicolon]);
    assert [] + Tokens(text) + [Semicolon] == [t, Ident(x), Semicolon];
  }

  /** For example, `*` is tighter than `+` on either side, `-` associates to the left and
      `**` to the right, and `-` in front is looser than `**`. */
  lemma Examples(x: Name, y: Name, z: Name)
    ensures ParseExpr([Ident(x), BinTok(Add), Ident(y), BinTok(Mul), Ident(z)], 0)
         == Ok(Binary(Add, Var(x), Binary(Mul, Var(y), Var(z))), 5)
    ensures ParseExpr([Ident(x), BinTok(Mul), Ident(y), BinTok(Add), Ident(z)], 0)
         == Ok(Binary(Add, Binary(Mul, Var(x), Var(y)), Var(z)), 5)
    ensures ParseExpr([Ident(x), BinTok(Sub), Ident(y), BinTok(Sub), Ident(z)], 0)
         == Ok(Binary(Sub, Binary(Sub, Var(x), Var(y)), Var(z)), 5)
    ensures ParseExpr([Ident(x), BinTok(Exp), Ident(y), BinTok(Exp), Ident(z)], 0)
         == Ok(Binary(Exp, Var(x), Binary(Exp, Var(y), Var(z))), 5)
    ensures ParseExpr([BinTok(Sub), Ident(x), BinTok(Exp), Ident(y)], 0) == Ok(Unary(Neg, Binary(Exp, Var(x), Var(y))), 4)
  {
    hide ParseExpr;
    RightNested(Add, Mul, x, y, z);
    LeftNested(Mul, Add, x, y, z);
    LeftNested(Sub, Sub, x, y, z);
    RightNested(Exp, Exp, x, y, z);
    MinusPower(x, y);
  }

  lemma MinusPower(x: Name, y: Name)
    ensures ParseExpr([BinTok(Sub), Ident(x), BinTok(Exp), Ident(y)], 0) == Ok(Unary(Neg, Binary(Exp, Var(x), Var(y))), 4)
  {
    hide ParseExpr, On;
    Names(x, y, y);
    var pow := Infixed(BinTok(Exp), Word(x), Word(y));
    TwoOn(BinTok(Exp), Word(x), Word(y));
    OnLooser(pow, PowerLevel, PrefixLevel);
    PrefixedOn(Neg, pow);
    OnLooser(Prefixed(Neg, pow), PrefixLevel, OrLevel);
    assert Tokens(pow) == [Ident(x), BinTok(Exp), Ident(y)] && TreeOf(pow) == Binary(Exp, Var(x), Var(y));
    ExampleRead(Prefixed(Neg, pow), [BinTok(Sub), Ident(x), BinTok(Exp), Ident(y)]);
  }

  lemma RightNested(op: BinOp, inner: BinOp, x: Name, y: Name, z: Name)
    requires var i := Infixed(BinTok(inner), Word(y), Word(z));
             Tighter(Own(i)) <= Tighter(Next(Own(Infixed(BinTok(op), Word(x), i))))
    ensures ParseExpr([Ident(x), BinTok(op), Ident(y), BinTok(inner), Ident(z)], 0)
         == Ok(Binary(op, Var(x), Binary(inner, Var(y), Var(z))), 5)
  {
    hide ParseExpr, On;
    var i := Infixed(BinTok(inner), Word(y), Word(z));
    var t := Infixed(BinTok(op), Word(x), i);
    Names(x, y, z);
    TwoOn(BinTok(inner), Word(y), Word(z));
    OnLooser(i, Own(i), Next(Own(t)));
    TwoOn(BinTok(op), Word(x), i);
    assert Tokens(i) == [Ident(y), BinTok(inner), Ident(z)] && TreeOf(i) == Binary(inner, Var(y), Var(z));
    ExampleRead(t, [Ident(x), BinTok(op), Ident(y), BinTok(inner), Ident(z)]);
  }

  lemma LeftNested(inner: BinOp, op: BinOp, x: Name, y: Name, z: Name)
    requires var i := Infixed(BinTok(inner), Word(x), Word(y));
             Tighter(Own(i)) <= Tighter(LeftLevel(Own(Infixed(BinTok(op), i, Word(z)))))
    ensures ParseExpr([Ident(x), BinTok(inner), Ident(y), BinTok(op), Ident(z)], 0)
         == Ok(Binary(op, Binary(inner, Var(x), Var(y)), Var(z)), 5)
  {
    hide ParseExpr, On;
    var i := Infixed(BinTok(inner), Word(x), Word(y));
    var t := Infixed(BinTok(op), i, Word(z));
    Names(x, y, z);
    TwoOn(BinTok(inner), Word(x), Word(y));
    OnLooser(i, Own(i), LeftLevel(Own(t)));
    TwoOn(BinTok(op), i, Word(z));
    assert Tokens(i) == [Ident(x), BinTok(inner), Ident(y)] && TreeOf(i) == Binary(inner, Var(x), Var(y));
    ExampleRead(t, [Ident(x), BinTok(inner), Ident(y), BinTok(op), Ident(z)]);
  }

  lemma Names(x: Name, y: Name, z: Name)
    ensures forall level :: On(Word(x), level)
    ensures forall level :: On(Word(y), level)
    ensures forall level :: On(Word(z), level)
  {
    NameOn(x);
    NameOn(y);
    NameOn(z);
  }

  lemma NameOn(x: Name)
    ensures forall level :: On(Word(x), level)
  {
    hide On;
    forall level
      ensures On(Word(x), level)
    {
      NameOnCall(x);
      OnLooser(Word(x), CallLevel, level);
    }
  }

  lemma NameOnCall(x: Name)
    ensures On(Word(x), CallLevel)
  {
  }

  lemma TwoOn(op: Token, l: Text, r: Text)
    requires op.BinTok?
    requires var own := Own(Infixed(op, l, r)); On(l, LeftLevel(own)) && Closed(l) && On(r, Next(own))
    ensures On(Infixed(op, l, r), Own(Infixed(op, l, r))) && On(Infixed(op, l, r), OrLevel)
  {
    hide On;
    InfixedOwn(op, l, r);
    OnLooser(Infixed(op, l, r), Own(Infixed(op, l, r)), OrLevel);
  }

  lemma ExampleRead(t: Text, toks: seq<Token>)
    requires On(t, OrLevel) && Tokens(t) == toks
    ensures ParseExpr(toks, 0) == Ok(TreeOf(t), |toks|)
  {
    hide On, ParseExpr;
    TextIsRead(t, [], []);
    assert [] + toks + [] == toks;
  }

  /** Equal texts have equal trees. */
  lemma OneTree(t1: Text, t2: Text)
    requires On(t1, OrLevel) && On(t2, OrLevel) && Tokens(t1) == Tokens(t2)
    ensures TreeOf(t1) == TreeOf(t2)
  {
    TextIsRead(t1, [], []);
    TextIsRead(t2, [], []);
  }
}
