/** The printer's parentheses are as few as can be: no shorter text is read as the tree.
    And none can be left out.  Around an operand on the right the reader would stop inside
    the tree (in the printer's module); around one on the left its end would swallow the
    operator that follows. */
module Minimal {
  import opened Syntax
  import opened Parser
  import opened Pratt

  function LeftOf(e: Expr): Option<Expr> {
    match e
    case Binary(_, l, _) => Some(l)
    case Logic(_, l, _) => Some(l)
    case Call(f, _) => Some(f)
    case _ => None
  }

  /** How many steps to the left lead to the end. */
  function Height(e: Expr): nat {
    match e
    case Binary(_, l, _) => 1 + Height(l)
    case Logic(_, l, _) => 1 + Height(l)
    case Call(f, _) => 1 + Height(f)
    case _ => 0
  }

  /** Going to the left from `e` one comes to `x`. */
  predicate OnSpine(x: Expr, e: Expr)
    decreases e
  {
    x == e ||
    match e
    case Binary(_, l, _) => OnSpine(x, l)
    case Logic(_, l, _) => OnSpine(x, l)
    case Call(f, _) => OnSpine(x, f)
    case _ => false
  }

  lemma {:induction false} SpineIsLower(x: Expr, e: Expr)
    requires OnSpine(x, e)
    ensures Height(x) <= Height(e) && (Height(x) == Height(e) ==> x == e)
    decreases e
  {
    if x != e {
      SpineIsLower(x, LeftOf(e).value);
    }
  }

  /** Two trees of one spine that have the same left operand are the same. */
  lemma {:induction false} OneOfTwo(x: Expr, y: Expr, e: Expr)
    requires OnSpine(x, e) && OnSpine(y, e) && LeftOf(x) == LeftOf(y)
    ensures x == y
    decreases e
  {
    SameHeight(x, y);
    if x == e {
      SpineIsLower(y, e);
    } else if y == e {
      SpineIsLower(x, e);
    } else {
      OneOfTwo(x, y, LeftOf(e).value);
    }
  }

  lemma SameHeight(x: Expr, y: Expr)
    requires LeftOf(x) == LeftOf(y)
    ensures Height(x) == Height(y)
  {
  }

  lemma {:induction false} SpineDown(x: Expr, y: Expr, e: Expr)
    requires LeftOf(y) == Some(x) && OnSpine(y, e)
    ensures OnSpine(x, e)
    decreases e
  {
    if y != e {
      SpineDown(x, y, LeftOf(e).value);
    }
  }

  lemma LedWraps(toks: seq<Token>, pos: nat, left: Expr)
    ensures ParseLed(toks, pos, left).Ok? ==> LeftOf(ParseLed(toks, pos, left).tree) == Some(left)
  {
    hide ParseInner, ParseArgs;
  }

  /** The loop of the reader only puts trees around what it has. */
  lemma {:induction false} LoopWraps(toks: seq<Token>, pos: nat, rbp: nat, left: Expr)
    requires pos <= |toks|
    ensures ParseLoop(toks, pos, rbp, left).Ok? ==> OnSpine(left, ParseLoop(toks, pos, rbp, left).tree)
    decreases |toks| - pos
  {
    hide ParseLed;
    if rbp < Lbp(Peek(toks, pos)) && ParseLed(toks, pos, left).Ok? {
      var r := ParseLed(toks, pos, left);
      LedWraps(toks, pos, left);
      LoopWraps(toks, r.pos, rbp, r.tree);
      if ParseLoop(toks, pos, rbp, left).Ok? {
        SpineDown(left, r.tree, ParseLoop(toks, pos, rbp, left).tree);
      }
    }
  }

  /** A tighter operator is taken in. */
  lemma Swallowed(toks: seq<Token>, pos: nat, rbp: nat, left: Expr)
    requires pos <= |toks| && rbp < Lbp(Peek(toks, pos))
    ensures ParseLoop(toks, pos, rbp, left).Ok? ==> ParseLoop(toks, pos, rbp, left).tree != left
  {
    hide ParseLed;
    var r := ParseLed(toks, pos, left);
    if r.Ok? {
      LedWraps(toks, pos, left);
      LoopWraps(toks, r.pos, rbp, r.tree);
      if ParseLoop(toks, pos, rbp, left).Ok? {
        SpineIsLower(r.tree, ParseLoop(toks, pos, rbp, left).tree);
        Above(left, r.tree);
      }
    }
  }

  lemma Above(x: Expr, y: Expr)
    requires LeftOf(y) == Some(x)
    ensures Height(y) == Height(x) + 1
  {
  }

  /** After an operand comes an operator that binds tighter than the operand is read with,
      or than its end: then not the operand alone is read. */
  lemma {:induction false} OperandSwallows(e: Expr, toks: seq<Token>, pos: nat, rbp: nat)
    requires Printable(e) && Reads(toks, pos, Operand(e, rbp)) && rbp <= UNARY_POWER
    requires var t := Peek(toks, pos + |Operand(e, rbp)|); Lbp(t) > Min(rbp, OperandEdge(e, rbp)) && !AssignLike(t)
    ensures ParseInner(toks, pos, rbp).Ok? ==> ParseInner(toks, pos, rbp).tree != e
    decreases e, 2
  {
    hide Bare, ParseInner, ParseLoop, ParseNud, Printable, Edge;
    TightestIs(Peek(toks, pos + |Operand(e, rbp)|));
    if NeedsParens(e, rbp) {
      ParensRead(e, toks, pos, rbp);
      Swallowed(toks, pos + |Operand(e, rbp)|, rbp, e);
    } else {
      BareSwallows(e, toks, pos, rbp);
    }
  }

  /** The same for a bare tree; and if the operator binds tighter than the tree's own end,
      the tree is not even a left operand of what is read. */
  lemma {:induction false} BareSwallows(e: Expr, toks: seq<Token>, pos: nat, rbp: nat)
    requires Printable(e) && Reads(toks, pos, Bare(e)) && !NeedsParens(e, rbp) && rbp <= UNARY_POWER
    requires var t := Peek(toks, pos + |Bare(e)|); Lbp(t) > Min(rbp, Edge(e)) && !AssignLike(t)
    ensures var r := ParseInner(toks, pos, rbp);
            r.Ok? ==> r.tree != e && (Edge(e) < Lbp(Peek(toks, pos + |Bare(e)|)) ==> !OnSpine(e, r.tree))
    decreases e, 1
  {
    hide Bare, ParseInner, ParseLoop, ParseNud, Printable, Edge;
    var t := Peek(toks, pos + |Bare(e)|);
    if Lbp(t) <= Edge(e) {
      BareRead(e, toks, pos, rbp);
      Swallowed(toks, pos + |Bare(e)|, rbp, e);
    } else {
      EdgeSwallows(e, toks, pos, rbp);
    }
  }

  lemma {:induction false} EdgeSwallows(e: Expr, toks: seq<Token>, pos: nat, rbp: nat)
    requires Printable(e) && Reads(toks, pos, Bare(e)) && !NeedsParens(e, rbp) && rbp <= UNARY_POWER
    requires var t := Peek(toks, pos + |Bare(e)|); Edge(e) < Lbp(t) && !AssignLike(t)
    ensures ParseInner(toks, pos, rbp).Ok? ==> !OnSpine(e, ParseInner(toks, pos, rbp).tree)
    decreases e, 0
  {
    hide ParseInner, ParseLoop, ParseNud, Operand, LeftOperand, ArgToks, OperandEdge;
    TightestIs(Peek(toks, pos + |Bare(e)|));
    match e
    case Assign(x, e1) => AssignSwallows(e, x, Equal, e1, toks, pos, rbp);
    case OpAssign(x, op, e1) => AssignSwallows(e, x, OpEqual(op), e1, toks, pos, rbp);
    case Unary(op, e1) =>
      ReadsSplit(toks, pos, [UnaryTok(op)], Operand(e1, UNARY_POWER));
      ReadsOne(toks, pos, [UnaryTok(op)], 0);
      OperandSwallows(e1, toks, pos + 1, UNARY_POWER);
      UnaryReads(e, op, e1, toks, pos, rbp);
    case Binary(op, l, r) => InfixSwallows(e, l, r, BinTok(op), BinPower(op), RightPower(op), toks, pos, rbp);
    case Logic(isAnd, l, r) => InfixSwallows(e, l, r, LogicTok(isAnd), LogicPower(isAnd), LogicPower(isAnd), toks, pos, rbp);
    case _ =>
  }

  lemma TightestIs(t: Token)
    ensures Lbp(t) <= 13
  {
  }

  /** What the reader makes of the start is another tree of the same kind. */
  lemma OtherTree(e: Expr, x: Expr, toks: seq<Token>, pos: nat, rbp: nat, p: nat)
    requires p <= |toks| && ParseInner(toks, pos, rbp) == ParseLoop(toks, p, rbp, x) && x != e && LeftOf(x) == LeftOf(e)
    ensures ParseInner(toks, pos, rbp).Ok? ==> !OnSpine(e, ParseInner(toks, pos, rbp).tree)
  {
    hide ParseInner, ParseLoop;
    LoopWraps(toks, p, rbp, x);
    var r := ParseInner(toks, pos, rbp);
    if r.Ok? && OnSpine(e, r.tree) {
      OneOfTwo(e, x, r.tree);
    }
  }

  lemma UnaryReads(e: Expr, op: UnOp, e1: Expr, toks: seq<Token>, pos: nat, rbp: nat)
    requires e == Unary(op, e1) && Peek(toks, pos) == UnaryTok(op)
    requires ParseInner(toks, pos + 1, UNARY_POWER).Ok? ==> ParseInner(toks, pos + 1, UNARY_POWER).tree != e1
    ensures ParseInner(toks, pos, rbp).Ok? ==> !OnSpine(e, ParseInner(toks, pos, rbp).tree)
  {
    hide ParseLoop, OnSpine;
    var r := ParseInner(toks, pos + 1, UNARY_POWER);
    if r.Ok? {
      NudUnary(toks, pos, op, r.tree, r.pos);
      InnerIs(toks, pos, rbp, Unary(op, r.tree), r.pos);
      OtherTree(e, Unary(op, r.tree), toks, pos, rbp, r.pos);
    } else {
      assert ParseNud(toks, pos) == Bad;
    }
  }

  lemma {:induction false} AssignSwallows(e: Expr, x: Name, t: Token, e1: Expr, toks: seq<Token>, pos: nat, rbp: nat)
    requires e == (if t == Equal then Assign(x, e1) else if t.OpEqual? then OpAssign(x, t.op, e1) else e)
    requires t == Equal || (t.OpEqual? && CompoundOp(t).Some?)
    requires Printable(e1) && Reads(toks, pos, [Ident(x), t] + Bare(e1))
    requires var after := Peek(toks, pos + 2 + |Bare(e1)|); Lbp(after) > 0 && !AssignLike(after)
    ensures ParseInner(toks, pos, rbp).Ok? ==> !OnSpine(e, ParseInner(toks, pos, rbp).tree)
    decreases e1, 3
  {
    hide Bare, ParseLoop, OnSpine, ParseInner, ParseNud;
    ReadsSplit(toks, pos, [Ident(x), t], Bare(e1));
    ReadsOne(toks, pos, [Ident(x), t], 0);
    ReadsOne(toks, pos, [Ident(x), t], 1);
    assert !NeedsParens(e1, 0);
    BareSwallows(e1, toks, pos + 2, 0);
    var r := ParseInner(toks, pos + 2, 0);
    if r.Ok? {
      var e2 := if t == Equal then Assign(x, r.tree) else OpAssign(x, t.op, r.tree);
      NudAssign(toks, pos, x, t, r.tree, r.pos);
      InnerIs(toks, pos, rbp, e2, r.pos);
      OtherTree(e, e2, toks, pos, rbp, r.pos);
    } else {
      AssignBad(toks, pos, x, t);
      NudBad(toks, pos, rbp);
    }
  }

  lemma AssignBad(toks: seq<Token>, pos: nat, x: Name, t: Token)
    requires Peek(toks, pos) == Ident(x) && pos < |toks| && Peek(toks, pos + 1) == t
    requires t == Equal || CompoundOp(t).Some?
    requires !ParseInner(toks, pos + 2, 0).Ok?
    ensures ParseNud(toks, pos) == Bad
  {
    hide ParseInner, ParseExpr;
    ExprIsInner(toks, pos + 2);
  }

  lemma NudBad(toks: seq<Token>, pos: nat, rbp: nat)
    requires ParseNud(toks, pos) == Bad
    ensures ParseInner(toks, pos, rbp) == Bad
  {
  }

  lemma {:induction false} InfixSwallows(e: Expr, l: Expr, r: Expr, t: Token, power: nat, right: nat,
                                         toks: seq<Token>, pos: nat, rbp: nat)
    requires Infix(e, l, r, t, power, right) && Printable(l) && Printable(r) && power > rbp && rbp <= UNARY_POWER
    requires Reads(toks, pos, Bare(e))
    requires var after := Peek(toks, pos + |Bare(e)|); Lbp(after) > Edge(e) && !AssignLike(after)
    ensures ParseInner(toks, pos, rbp).Ok? ==> !OnSpine(e, ParseInner(toks, pos, rbp).tree)
    decreases e, 0, 0
  {
    hide Bare, ParseInner, ParseLoop, ParseNud, ParseLed, LeftOperand, Operand, OnSpine, Printable, AssignLike;
    var left, rest := LeftOperand(l, power), Operand(r, right);
    BareInfix(e, l, r, t, power, right);
    ReadsSplit(toks, pos, left + [t], rest);
    ReadsSplit(toks, pos, left, [t]);
    var mid := pos + |left|;
    ReadsOne(toks, mid, [t], 0);
    LeftRead(l, toks, pos, power, rbp);
    OperandSwallows(r, toks, mid + 1, right);
    var b := ParseInner(toks, mid + 1, right);
    if b.Ok? {
      var e2 := if e.Binary? then Binary(e.op, l, b.tree) else Logic(e.isAnd, l, b.tree);
      if e.Binary? {
        LedBinary(toks, mid, l, e.op, b.tree, b.pos);
      } else {
        LedLogic(toks, mid, l, e.isAnd, b.tree, b.pos);
      }
      LoopIs(toks, mid, rbp, l, e2, b.pos);
      OtherTree(e, e2, toks, pos, rbp, b.pos);
    } else {
      LedBad(toks, mid, rbp, l, t, right);
    }
  }

  lemma LedBad(toks: seq<Token>, mid: nat, rbp: nat, l: Expr, t: Token, right: nat)
    requires mid <= |toks| && Peek(toks, mid) == t && rbp < Lbp(t) && !ParseInner(toks, mid + 1, right).Ok?
    requires (t.BinTok? && right == RightPower(t.op)) || ((t == AndAnd || t == OrOr) && right == LogicPower(t == AndAnd))
    ensures ParseLoop(toks, mid, rbp, l) == Bad
  {
    hide ParseInner;
  }

  /** Without the parentheses around a left operand that the printer asks for, whatever
      follows, no tree is read that has this operand on the left of its operator. */
  lemma LeftParensNeeded(l: Expr, toks: seq<Token>, pos: nat, rbp: nat)
    requires Printable(l) && Reads(toks, pos, Bare(l)) && !NeedsParens(l, rbp) && rbp <= UNARY_POWER
    requires var t := Peek(toks, pos + |Bare(l)|); Edge(l) < Lbp(t) && !AssignLike(t)
    ensures var r := ParseInner(toks, pos, rbp); r.Ok? ==> LeftOf(r.tree) != Some(l) && r.tree != l
  {
    hide Bare, ParseInner, Printable;
    BareSwallows(l, toks, pos, rbp);
    var r := ParseInner(toks, pos, rbp);
    if r.Ok? && LeftOf(r.tree) == Some(l) {
      SpineDown(l, r.tree, r.tree);
    }
  }

  // ----- no text is shorter -----

  /** So many tokens are enough for a tree that is read with power `rbp` and followed by
      `t`: for the bare tree, and for two parentheses more where those are needed. */
  ghost predicate Enough(n: int, e: Expr, rbp: nat, t: Token) {
    n >= |Operand(e, rbp)| && (Edge(e) < Lbp(t) ==> n >= |Bare(e)| + 2)
  }

  lemma EnoughBare(n: int, e: Expr, rbp: nat, t: Token)
    requires n >= |Bare(e)| && !NeedsParens(e, rbp) && (Edge(e) < Lbp(t) ==> n >= |Bare(e)| + 2)
    ensures Enough(n, e, rbp, t)
  {
    hide Bare;
  }

  lemma EnoughParens(n: int, e: Expr, rbp: nat, t: Token)
    requires n >= |Bare(e)| + 2
    ensures Enough(n, e, rbp, t)
  {
    hide Bare;
  }

  /** A left operand, in front of an operator of its power. */
  lemma EnoughLeft(n: int, e: Expr, rbp: nat, t: Token, power: nat)
    requires Enough(n, e, rbp, t) && Lbp(t) == power
    ensures n >= |LeftOperand(e, power)|
  {
    hide Bare, Edge;
    assert n >= |Bare(e)|;
  }

  /** A last operand that is read with power `right` and followed by `t`. */
  lemma EnoughLast(n: int, e: Expr, right: nat, t: Token)
    requires Enough(n, e, right, t) && Lbp(t) <= right
    ensures n >= |Operand(e, right)| && (Min(right, OperandEdge(e, right)) < Lbp(t) ==> n >= |Operand(e, right)| + 2)
  {
    hide Bare;
    TightestIs(t);
  }

  lemma {:induction false} ShortInner(toks: seq<Token>, pos: nat, rbp: nat)
    ensures var r := ParseInner(toks, pos, rbp);
            r.Ok? ==> Enough(r.pos - pos, r.tree, rbp, Peek(toks, r.pos)) && Lbp(Peek(toks, r.pos)) <= rbp
    decreases |toks| - pos, 3
  {
    hide ParseNud, ParseLoop, Enough;
    ShortNud(toks, pos, rbp);
    var n := ParseNud(toks, pos);
    if n.Ok? {
      ShortLoop(toks, pos, n.pos, rbp, n.tree);
    }
  }

  lemma {:induction false} ShortNud(toks: seq<Token>, pos: nat, rbp: nat)
    ensures var r := ParseNud(toks, pos); r.Ok? ==> Enough(r.pos - pos, r.tree, rbp, Peek(toks, r.pos))
    decreases |toks| - pos, 1
  {
    hide ParseInner, Enough, Operand, LeftOperand;
    var r := ParseNud(toks, pos);
    if r.Ok? {
      var t, after := Peek(toks, pos), Peek(toks, r.pos);
      TightestIs(after);
      if t.Ident? {
        ShortIdent(toks, pos, t.x, rbp);
      } else if LiteralOf(t).Some? {
        EnoughBare(1, r.tree, rbp, after);
      } else if t == LeftParen {
        NoShorterText(toks, pos + 1);
        EnoughParens(r.pos - pos, r.tree, rbp, after);
      } else {
        ShortInner(toks, pos + 1, UNARY_POWER);
        EnoughLast(r.pos - pos - 1, r.tree.e, UNARY_POWER, after);
        EnoughBare(r.pos - pos, r.tree, rbp, after);
      }
    }
  }

  lemma {:induction false} ShortIdent(toks: seq<Token>, pos: nat, x: Name, rbp: nat)
    requires pos < |toks|
    ensures var r := ParseIdent(toks, pos, x); r.Ok? ==> Enough(r.pos - pos, r.tree, rbp, Peek(toks, r.pos))
    decreases |toks| - pos, 0
  {
    hide ParseExpr, Enough;
    var r, t := ParseIdent(toks, pos, x), Peek(toks, pos + 1);
    if r.Ok? {
      TightestIs(Peek(toks, r.pos));
      if CompoundOp(t).Some? || t == Equal {
        NoShorterText(toks, pos + 2);
      }
      EnoughBare(r.pos - pos, r.tree, rbp, Peek(toks, r.pos));
    }
  }

  lemma {:induction false} ShortLoop(toks: seq<Token>, pos: nat, p: nat, rbp: nat, left: Expr)
    requires pos <= p <= |toks| && Enough(p - pos, left, rbp, Peek(toks, p))
    ensures var r := ParseLoop(toks, p, rbp, left);
            r.Ok? ==> Enough(r.pos - pos, r.tree, rbp, Peek(toks, r.pos)) && Lbp(Peek(toks, r.pos)) <= rbp
    decreases |toks| - p, 2
  {
    hide ParseLed, Enough;
    if rbp < Lbp(Peek(toks, p)) {
      ShortLed(toks, pos, p, rbp, left);
      var d := ParseLed(toks, p, left);
      if d.Ok? {
        ShortLoop(toks, pos, d.pos, rbp, d.tree);
      }
    }
  }

  lemma {:induction false} ShortLed(toks: seq<Token>, pos: nat, p: nat, rbp: nat, left: Expr)
    requires pos <= p <= |toks| && Enough(p - pos, left, rbp, Peek(toks, p)) && rbp < Lbp(Peek(toks, p))
    ensures var r := ParseLed(toks, p, left); r.Ok? ==> Enough(r.pos - pos, r.tree, rbp, Peek(toks, r.pos))
    decreases |toks| - p, 1
  {
    hide ParseInner, ParseArgs, Operand, LeftOperand, ArgToks, OperandEdge;
    var t, r := Peek(toks, p), ParseLed(toks, p, left);
    if r.Ok? {
      var after := Peek(toks, r.pos);
      TightestIs(after);
      EnoughLeft(p - pos, left, rbp, t, Lbp(t));
      if t == LeftParen {
        ShortArgs(toks, p + 1, true);
      } else {
        var right, b := if t.BinTok? then RightPower(t.op) else LogicPower(t == AndAnd), r.tree.r;
        ShortInner(toks, p + 1, right);
        EnoughLast(r.pos - p - 1, b, right, after);
      }
      EnoughBare(r.pos - pos, r.tree, rbp, after);
    }
  }

  lemma {:induction false} ShortArgs(toks: seq<Token>, pos: nat, first: bool)
    ensures var r := ParseArgs(toks, pos, first); r.Ok? ==> r.pos - pos >= |ArgToks(r.tree, first)|
    decreases |toks| - pos, 5
  {
    hide ParseExpr, Bare;
    if ParseArgs(toks, pos, first).Ok? && ParseArgs(toks, pos, first).tree.Cons? {
      var at := if first then pos else pos + 1;
      NoShorterText(toks, at);
      ShortArgs(toks, ParseExpr(toks, at).pos, false);
    }
  }

  /** The printed text of a tree is the shortest there is: whatever tokens are read as the
      tree, they are no fewer. */
  lemma {:induction false} NoShorterText(toks: seq<Token>, pos: nat)
    ensures var r := ParseExpr(toks, pos); r.Ok? ==> r.pos - pos >= |Bare(r.tree)| && Lbp(Peek(toks, r.pos)) <= 0
    decreases |toks| - pos, 4
  {
    hide ParseInner, Bare;
    ShortInner(toks, pos, 0);
  }

  /** And a module that is that tree alone has no shorter text either. */
  lemma NoShorterModule(toks: seq<Token>, e: Expr)
    requires ParseModule(toks).Ok? && ParseModule(toks).tree == Cons(ExprStmt(e), Nil)
    ensures |toks| >= |Bare(e) + [Semicolon]|
  {
    hide ParseBlock, ParseExpr, Bare, ParseDecls, ParseFun, ParseIf, ParseFor, ParseWhile, ParseTry;
    BlockReads(toks, 0, 0, Eof);
    OnlyDefault(toks);
    NoShorterText(toks, 0);
  }

  lemma OnlyDefault(toks: seq<Token>)
    requires ParseStmt(toks, 0, 0).Ok? && ParseStmt(toks, 0, 0).tree.ExprStmt?
    ensures ParseStmt(toks, 0, 0) == match ParseExprSemi(toks, 0) case Bad => Bad case Ok(e, p) => Ok(ExprStmt(e), p)
  {
    hide ParseExpr, ParseExprSemi, ParseDecls;
  }
}
