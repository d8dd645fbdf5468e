/** Regular expressions: their languages, their postfix and infix notations, and the
    translation from infix to postfix with an operator stack. */
module Regex {
  import opened Syntax

  datatype Regex =
    | Nothing
    | Sym(c: char)
    | Cat(l: Regex, r: Regex)
    | Alt(l: Regex, r: Regex)
    | Star(e: Regex)
    | Opt(e: Regex)
    | Plus(e: Regex)

  /** `Nothing` is the empty pattern, which matches the empty word. */
  ghost predicate InLang(r: Regex, w: string)
    decreases r, |w|, 0
  {
    match r
    case Nothing => w == []
    case Sym(c) => w == [c]
    case Cat(a, b) => exists i :: 0 <= i <= |w| && InLang(a, w[..i]) && InLang(b, w[i..])
    case Alt(a, b) => InLang(a, w) || InLang(b, w)
    case Star(e) => w == [] || exists i :: 0 < i <= |w| && InLang(e, w[..i]) && InLang(r, w[i..])
    case Opt(e) => w == [] || InLang(e, w)
    case Plus(e) => exists i :: 0 <= i <= |w| && InLang(e, w[..i]) && InStar(e, w[i..])
  }

  /** Zero or more words of a language, one after the other. */
  ghost predicate InStar(e: Regex, w: string)
    decreases e, |w|, 1
  {
    w == [] || exists i :: 0 < i <= |w| && InLang(e, w[..i]) && InStar(e, w[i..])
  }

  lemma {:induction false} StarIs(e: Regex, w: string)
    ensures InLang(Star(e), w) <==> InStar(e, w)
    decreases |w|
  {
    if w != [] {
      forall i | 0 < i <= |w|
        ensures InLang(Star(e), w[i..]) <==> InStar(e, w[i..])
      {
        StarIs(e, w[i..]);
      }
    }
  }

  /** The words of a star are the words of the expression, any number of them in a row. */
  ghost predicate InARow(e: Regex, words: seq<string>, w: string)
    decreases words
  {
    if words == [] then w == []
    else |words[0]| <= |w| && w[..|words[0]|] == words[0] && InLang(e, words[0]) && InARow(e, words[1..], w[|words[0]|..])
  }

  lemma {:induction false} StarHasRow(e: Regex, w: string) returns (words: seq<string>)
    requires InStar(e, w)
    ensures InARow(e, words, w)
    decreases |w|
  {
    words := [];
    if w != [] {
      var i :| 0 < i <= |w| && InLang(e, w[..i]) && InStar(e, w[i..]);
      var rest := StarHasRow(e, w[i..]);
      words := [w[..i]] + rest;
      assert words[1..] == rest;
    }
  }

  lemma {:induction false} RowsAreStar(e: Regex, words: seq<string>, w: string)
    requires InARow(e, words, w)
    ensures InStar(e, w)
    decreases words
  {
    if words != [] {
      RowsAreStar(e, words[1..], w[|words[0]|..]);
      if words[0] == [] {
        assert w[0..] == w;
      }
    }
  }

  /** `e+` is `e.e*`, and `e?` is `e` or nothing. */
  lemma PlusAndOpt(e: Regex, w: string)
    ensures InLang(Plus(e), w) <==> InLang(Cat(e, Star(e)), w)
    ensures InLang(Opt(e), w) <==> InLang(Alt(e, Nothing), w)
  {
    forall i | 0 <= i <= |w|
      ensures InLang(Star(e), w[i..]) <==> InStar(e, w[i..])
    {
      StarIs(e, w[i..]);
    }
  }

  lemma {:induction false} CatIntro(a: Regex, b: Regex, u: string, v: string)
    requires InLang(a, u) && InLang(b, v)
    ensures InLang(Cat(a, b), u + v)
  {
    assert (u + v)[..|u|] == u && (u + v)[|u|..] == v;
  }

  lemma {:induction false} StarCons(e: Regex, u: string, v: string)
    requires InLang(e, u) && InStar(e, v)
    ensures InStar(e, u + v)
  {
    if u == [] {
      assert u + v == v;
    } else {
      assert (u + v)[..|u|] == u && (u + v)[|u|..] == v;
    }
  }

  lemma {:induction false} PlusIntro(e: Regex, u: string, v: string)
    requires InLang(e, u) && InStar(e, v)
    ensures InLang(Plus(e), u + v)
  {
    assert (u + v)[..|u|] == u && (u + v)[|u|..] == v;
  }

  // ----- postfix notation -----

  predicate IsOperator(t: char) { t in ['.', '|', '*', '?', '+'] }

  /** What one token does to a stack of expressions (the top is last); none when an
      operand is missing. */
  function Apply(t: char, st: seq<Regex>): Option<seq<Regex>> {
    var n := |st|;
    if t in ['*', '?', '+'] then
      if n < 1 then None
      else
        var e := st[n - 1];
        Some(st[..n - 1] + [if t == '*' then Star(e) else if t == '?' then Opt(e) else Plus(e)])
    else if t in ['|', '.'] then
      if n < 2 then None
      else Some(st[..n - 2] + [if t == '|' then Alt(st[n - 2], st[n - 1]) else Cat(st[n - 2], st[n - 1])])
    else Some(st + [Sym(t)])
  }

  function Postfix(p: string, st: seq<Regex>): Option<seq<Regex>>
    decreases p
  {
    if p == [] then Some(st)
    else
      match Apply(p[0], st)
      case None => None
      case Some(st1) => Postfix(p[1..], st1)
  }

  lemma {:induction false} PostfixAppend(p: string, q: string, st: seq<Regex>)
    ensures Postfix(p + q, st) == (match Postfix(p, st) case None => None case Some(st1) => Postfix(q, st1))
    decreases p
  {
    if p == [] {
      assert p + q == q;
    } else {
      assert (p + q)[0] == p[0] && (p + q)[1..] == p[1..] + q;
      match Apply(p[0], st)
      case None =>
      case Some(st1) => PostfixAppend(p[1..], q, st1);
    }
  }

  // ----- infix notation -----

  datatype Infix =
    | Leaf(c: char)
    | Group(e: Infix)
    | After(op: char, e: Infix)
    | Between(op: char, l: Infix, r: Infix)

  /** The table of operator precedences. */
  function Precedence(op: char): nat {
    if op == '|' then 0 else if op == '.' then 1 else 2
  }

  /** How tightly an expression holds together. */
  function Level(e: Infix): nat {
    match e
    case Leaf(_) => 3
    case Group(_) => 3
    case After(_, _) => 2
    case Between(op, _, _) => Precedence(op)
  }

  /** The grammar of infix expressions: alternatives of sequences of repeated atoms, each
      associating to the left; symbols are not operators or parentheses. */
  predicate WellFormed(e: Infix)
    decreases e, 2
  {
    (e.Between? && e.op == '|' && WellFormed(e.l) && Sequence(e.r)) || Sequence(e)
  }

  predicate Sequence(e: Infix)
    decreases e, 1
  {
    (e.Between? && e.op == '.' && Sequence(e.l) && Repeated(e.r)) || Repeated(e)
  }

  predicate Repeated(e: Infix)
    decreases e, 0
  {
    match e
    case Leaf(c) => Symbol(c)
    case Group(x) => WellFormed(x)
    case After(op, x) => op in ['*', '?', '+'] && Repeated(x)
    case Between(_, _, _) => false
  }

  /** The same by the precedences: parentheses are where these and left association need
      them (and possibly elsewhere). */
  predicate Ranked(e: Infix) {
    match e
    case Leaf(c) => !IsOperator(c) && c != '(' && c != ')'
    case Group(x) => Ranked(x)
    case After(op, x) => op in ['*', '?', '+'] && Ranked(x) && Level(x) >= 2
    case Between(op, l, r) =>
      op in ['|', '.'] && Ranked(l) && Ranked(r) && Level(l) >= Precedence(op) && Level(r) > Precedence(op)
  }

  /** The precedences stand for the levels of the grammar. */
  lemma {:induction false} RanksAreLevels(e: Infix)
    ensures WellFormed(e) <==> Ranked(e)
    ensures Sequence(e) <==> Ranked(e) && Level(e) >= 1
    ensures Repeated(e) <==> Ranked(e) && Level(e) >= 2
    decreases e
  {
    match e
    case Leaf(c) =>
      assert Sequence(e) <==> Repeated(e);
      assert WellFormed(e) <==> Sequence(e);
    case Group(x) =>
      RanksAreLevels(x);
      assert Repeated(e) <==> WellFormed(x);
      assert Sequence(e) <==> Repeated(e);
    case After(op, x) =>
      RanksAreLevels(x);
      assert Sequence(e) <==> Repeated(e);
    case Between(op, l, r) =>
      RanksAreLevels(l);
      RanksAreLevels(r);
      assert !Repeated(e);
      assert Sequence(e) <==> op == '.' && Sequence(l) && Repeated(r);
      assert WellFormed(e) <==> (op == '|' && WellFormed(l) && Sequence(r)) || Sequence(e);
  }

  function InfixText(e: Infix): string {
    match e
    case Leaf(c) => [c]
    case Group(x) => ['('] + InfixText(x) + [')']
    case After(op, x) => InfixText(x) + [op]
    case Between(op, l, r) => InfixText(l) + [op] + InfixText(r)
  }

  function Tree(e: Infix): Regex {
    match e
    case Leaf(c) => Sym(c)
    case Group(x) => Tree(x)
    case After(op, x) => if op == '*' then Star(Tree(x)) else if op == '?' then Opt(Tree(x)) else Plus(Tree(x))
    case Between(op, l, r) => if op == '|' then Alt(Tree(l), Tree(r)) else Cat(Tree(l), Tree(r))
  }

  function PostfixText(e: Infix): string {
    match e
    case Leaf(c) => [c]
    case Group(x) => PostfixText(x)
    case After(op, x) => PostfixText(x) + [op]
    case Between(op, l, r) => PostfixText(l) + PostfixText(r) + [op]
  }

  /** The postfix text rebuilds the tree. */
  lemma {:induction false} PostfixTree(e: Infix, st: seq<Regex>)
    requires Ranked(e)
    ensures Postfix(PostfixText(e), st) == Some(st + [Tree(e)])
    decreases e
  {
    match e
    case Leaf(c) => assert Postfix([c], st) == Postfix([c][1..], st + [Sym(c)]);
    case Group(x) => PostfixTree(x, st);
    case After(op, x) =>
      PostfixTree(x, st);
      PostfixAppend(PostfixText(x), [op], st);
      assert (st + [Tree(x)])[..|st|] == st;
      OneToken(op, st + [Tree(x)]);
    case Between(op, l, r) =>
      PostfixTree(l, st);
      PostfixTree(r, st + [Tree(l)]);
      PostfixAppend(PostfixText(l), PostfixText(r), st);
      PostfixAppend(PostfixText(l) + PostfixText(r), [op], st);
      assert (st + [Tree(l)] + [Tree(r)])[..|st|] == st;
      OneToken(op, st + [Tree(l)] + [Tree(r)]);
  }

  lemma {:induction false} OneToken(t: char, st: seq<Regex>)
    ensures Postfix([t], st) == Apply(t, st)
  {
    if Apply(t, st).Some? {
      assert Postfix([t], st) == Postfix([t][1..], Apply(t, st).value);
    }
  }

  // ----- infix to postfix -----

  /** Operators above the innermost parenthesis that bind at least as tightly as `op`
      move to the output, top first. */
  function Unstack(output: string, ops: string, op: char): (string, string)
    decreases ops
  {
    if ops == [] then (output, ops)
    else
      var top := ops[|ops| - 1];
      if top != '(' && Precedence(top) >= Precedence(op) then Unstack(output + [top], ops[..|ops| - 1], op)
      else (output, ops)
  }

  /** Everything above the innermost parenthesis, and the parenthesis itself; none if
      there is no parenthesis (the loop of the program would not end). */
  function CloseParen(output: string, ops: string): Option<(string, string)>
    decreases ops
  {
    if ops == [] then None
    else
      var top, rest := ops[|ops| - 1], ops[..|ops| - 1];
      if top == '(' then Some((output, rest)) else CloseParen(output + [top], rest)
  }

  function YardToken(t: char, output: string, ops: string): Option<(string, string)> {
    if IsOperator(t) then
      var s := Unstack(output, ops, t);
      Some((s.0, s.1 + [t]))
    else if t == '(' then Some((output, ops + ['(']))
    else if t == ')' then CloseParen(output, ops)
    else Some((output + [t], ops))
  }

  function Yard(text: string, output: string, ops: string): Option<(string, string)>
    decreases text
  {
    if text == [] then Some((output, ops))
    else
      match YardToken(text[0], output, ops)
      case None => None
      case Some(s) => Yard(text[1..], s.0, s.1)
  }

  function Flush(output: string, ops: string): string
    decreases ops
  {
    if ops == [] then output else Flush(output + [ops[|ops| - 1]], ops[..|ops| - 1])
  }

  function ToPostfixText(text: string): Option<string> {
    match Yard(text, [], [])
    case None => None
    case Some(s) => Some(Flush(s.0, s.1))
  }

  lemma {:induction false} YardAppend(a: string, b: string, output: string, ops: string)
    ensures Yard(a + b, output, ops)
         == (match Yard(a, output, ops) case None => None case Some(s) => Yard(b, s.0, s.1))
    decreases a
  {
    if a == [] {
      assert a + b == b;
    } else {
      assert (a + b)[0] == a[0] && (a + b)[1..] == a[1..] + b;
      match YardToken(a[0], output, ops)
      case None =>
      case Some(s) => YardAppend(a[1..], b, s.0, s.1);
    }
  }

  lemma {:induction false} YardOne(t: char, output: string, ops: string)
    ensures Yard([t], output, ops) == YardToken(t, output, ops)
  {
    if YardToken(t, output, ops).Some? {
      var s := YardToken(t, output, ops).value;
      assert Yard([t], output, ops) == Yard([t][1..], s.0, s.1);
    }
  }

  /** No operator on top of `base` would be moved by an operator of this level. */
  predicate Below(base: string, level: nat) {
    base == [] || base[|base| - 1] == '(' || Precedence(base[|base| - 1]) < level
  }

  predicate AllAtLeast(ops: string, level: nat) {
    forall i :: 0 <= i < |ops| ==> ops[i] != '(' && Precedence(ops[i]) >= level
  }

  lemma {:induction false} UnstackAll(output: string, base: string, ops: string, op: char)
    requires AllAtLeast(ops, Precedence(op)) && Below(base, Precedence(op))
    ensures Unstack(output, base + ops, op) == (Flush(output, ops), base)
    decreases ops
  {
    if ops == [] {
      assert base + ops == base;
    } else {
      var n := |ops| - 1;
      assert (base + ops)[..|base + ops| - 1] == base + ops[..n];
      UnstackAll(output + [ops[n]], base, ops[..n], op);
    }
  }

  lemma {:induction false} CloseAll(output: string, base: string, ops: string)
    requires AllAtLeast(ops, 0)
    ensures CloseParen(output, base + ['('] + ops) == Some((Flush(output, ops), base))
    decreases ops
  {
    var all := base + ['('] + ops;
    if ops == [] {
      assert all[..|all| - 1] == base;
    } else {
      var n := |ops| - 1;
      assert all[..|all| - 1] == base + ['('] + ops[..n];
      CloseAll(output + [ops[n]], base, ops[..n]);
    }
  }

  lemma {:induction false} FlushMore(output: string, a: string, b: string)
    ensures Flush(output, a + b) == Flush(Flush(output, b), a)
    decreases b
  {
    if b == [] {
      assert a + b == a;
    } else {
      var n := |b| - 1;
      assert (a + b)[..|a + b| - 1] == a + b[..n];
      FlushMore(output + [b[n]], a, b[..n]);
    }
  }

  /** After an expression has been read, its postfix form has been put out but for the
      operators still on the stack above what was there before. */
  lemma {:induction false} YardReads(e: Infix, output: string, base: string) returns (out1: string, ops: string)
    requires Ranked(e) && Below(base, Level(e))
    ensures Yard(InfixText(e), output, base) == Some((out1, base + ops))
    ensures AllAtLeast(ops, Level(e)) && Flush(out1, ops) == output + PostfixText(e)
    decreases e
  {
    hide Unstack, CloseParen;
    match e
    case Leaf(c) =>
      YardOne(c, output, base);
      out1, ops := output + [c], [];
      assert base + ops == base;
    case Group(x) => out1, ops := YardGroup(x, output, base);
    case After(op, x) =>
      var o, ps := YardReads(x, output, base);
      YardAppend(InfixText(x), [op], output, base);
      YardOne(op, o, base + ps);
      UnstackAll(o, base, ps, op);
      out1, ops := Flush(o, ps), [op];
      FlushOne(out1, op);
      assert output + PostfixText(x) + [op] == output + (PostfixText(x) + [op]);
    case Between(op, l, r) => out1, ops := YardBetween(op, l, r, output, base);
  }

  lemma {:induction false} FlushOne(output: string, op: char)
    ensures Flush(output, [op]) == output + [op]
  {
    assert [op][..0] == [];
    assert Flush(output, [op]) == Flush(output + [op], [op][..0]);
  }

  lemma {:induction false} YardGroup(x: Infix, output: string, base: string) returns (out1: string, ops: string)
    requires Ranked(x)
    ensures Yard(InfixText(Group(x)), output, base) == Some((out1, base + ops))
    ensures ops == [] && out1 == output + PostfixText(x)
    decreases Group(x), 0
  {
    hide Unstack, CloseParen, Ranked, InfixText;
    var o, ps := YardReads(x, output, base + ['(']);
    YardOne('(', output, base);
    YardAppend(['('], InfixText(x), output, base);
    YardAppend(['('] + InfixText(x), [')'], output, base);
    YardOne(')', o, base + ['('] + ps);
    CloseAll(o, base, ps);
    out1, ops := output + PostfixText(x), [];
    assert base + ops == base;
    assert InfixText(Group(x)) == ['('] + InfixText(x) + [')'] by { GroupText(x); }
  }

  lemma {:induction false} GroupText(x: Infix)
    ensures InfixText(Group(x)) == ['('] + InfixText(x) + [')']
  {
  }

  lemma {:induction false} BetweenIs(op: char, l: Infix, r: Infix)
    requires Ranked(Between(op, l, r))
    ensures InfixText(Between(op, l, r)) == InfixText(l) + [op] + InfixText(r)
    ensures PostfixText(Between(op, l, r)) == PostfixText(l) + PostfixText(r) + [op]
    ensures Ranked(l) && Ranked(r) && Level(l) >= Precedence(op) && Level(r) > Precedence(op)
    ensures IsOperator(op) && op != '('
  {
  }

  lemma {:induction false} YardBetween(op: char, l: Infix, r: Infix, output: string, base: string) returns (out1: string, ops: string)
    requires Ranked(Between(op, l, r)) && Below(base, Precedence(op))
    ensures Yard(InfixText(Between(op, l, r)), output, base) == Some((out1, base + ops))
    ensures AllAtLeast(ops, Precedence(op)) && Flush(out1, ops) == output + PostfixText(Between(op, l, r))
    decreases Between(op, l, r), 0
  {
    hide Unstack, CloseParen, Flush, Yard, Ranked, InfixText, PostfixText, IsOperator;
    BetweenIs(op, l, r);
    var o, ps := YardReads(l, output, base);
    YardAppend(InfixText(l), [op], output, base);
    YardOne(op, o, base + ps);
    UnstackAll(o, base, ps, op);
    assert YardToken(op, o, base + ps) == Some((Flush(o, ps), base + [op]));
    var mid := output + PostfixText(l);
    assert base + [op] != [] && (base + [op])[|base|] == op;
    var o2, ps2 := YardReads(r, mid, base + [op]);
    YardAppend(InfixText(l) + [op], InfixText(r), output, base);
    out1, ops := o2, [op] + ps2;
    assert base + [op] + ps2 == base + ops;
    FlushMore(out1, [op], ps2);
    FlushOne(mid + PostfixText(r), op);
    assert mid + PostfixText(r) + [op] == output + (PostfixText(l) + PostfixText(r) + [op]);
  }

  /** The shunting-yard round trip, for every parenthesised infix expression. */
  lemma {:induction false} YardRoundTrip(e: Infix)
    requires WellFormed(e)
    ensures ToPostfixText(InfixText(e)) == Some(PostfixText(e))
    ensures Postfix(PostfixText(e), []) == Some([Tree(e)])
  {
    RanksAreLevels(e);
    var out1, ops := YardReads(e, [], []);
    assert [] + ops == ops;
    assert [] + PostfixText(e) == PostfixText(e);
    PostfixTree(e, []);
    assert [] + [Tree(e)] == [Tree(e)];
  }

  /** One text is one expression. */
  lemma OneReading(e1: Infix, e2: Infix)
    requires WellFormed(e1) && WellFormed(e2) && InfixText(e1) == InfixText(e2)
    ensures Tree(e1) == Tree(e2)
  {
    YardRoundTrip(e1);
    YardRoundTrip(e2);
    assert [Tree(e1)][0] == [Tree(e2)][0];
  }

  predicate Symbol(c: char) { c !in ['.', '|', '*', '?', '+', '(', ')'] }

  /** For example, `.` is tighter than `|` on either side, and operators associate to the
      left; those behind an atom are the tightest. */
  lemma Tighter(x: char, y: char, z: char)
    requires Symbol(x) && Symbol(y) && Symbol(z)
    ensures ToPostfixText([x, '|', y, '.', z]) == Some([x, y, z, '.', '|'])
    ensures ToPostfixText([x, '.', y, '|', z]) == Some([x, y, '.', z, '|'])
  {
    Atoms(x, y, z);
    var a, b, c := Leaf(x), Leaf(y), Leaf(z);
    var bc, ab := Between('.', b, c), Between('.', a, b);
    assert Sequence(bc) && Sequence(ab) && WellFormed(ab);
    assert InfixText(bc) == [y, '.', z] && PostfixText(bc) == [y, z, '.'];
    assert InfixText(ab) == [x, '.', y] && PostfixText(ab) == [x, y, '.'];
    YardText(Between('|', a, bc), [x, '|', y, '.', z], [x, y, z, '.', '|']);
    YardText(Between('|', ab, c), [x, '.', y, '|', z], [x, y, '.', z, '|']);
  }

  lemma LeftAndLast(x: char, y: char, z: char)
    requires Symbol(x) && Symbol(y) && Symbol(z)
    ensures ToPostfixText([x, '|', y, '|', z]) == Some([x, y, '|', z, '|'])
    ensures ToPostfixText([x, '.', y, '*']) == Some([x, y, '*', '.'])
  {
    Atoms(x, y, z);
    var a, b, c := Leaf(x), Leaf(y), Leaf(z);
    var ab, rep := Between('|', a, b), After('*', b);
    assert WellFormed(ab) && Repeated(rep) && Sequence(Between('.', a, rep));
    assert InfixText(ab) == [x, '|', y] && PostfixText(ab) == [x, y, '|'];
    assert InfixText(rep) == [y, '*'] && PostfixText(rep) == [y, '*'];
    YardText(Between('|', ab, c), [x, '|', y, '|', z], [x, y, '|', z, '|']);
    YardText(Between('.', a, rep), [x, '.', y, '*'], [x, y, '*', '.']);
  }

  lemma Atoms(x: char, y: char, z: char)
    requires Symbol(x) && Symbol(y) && Symbol(z)
    ensures forall c :: c in {x, y, z} ==> Repeated(Leaf(c)) && Sequence(Leaf(c)) && WellFormed(Leaf(c))
  {
  }

  lemma YardText(e: Infix, infix: string, postfix: string)
    requires WellFormed(e) && InfixText(e) == infix && PostfixText(e) == postfix
    ensures ToPostfixText(infix) == Some(postfix)
  {
    YardRoundTrip(e);
  }

  /** The expressions that have a text: the empty pattern has none inside another, and no
      symbol is an operator or a parenthesis. */
  predicate Printable(r: Regex) {
    match r
    case Nothing => false
    case Sym(c) => !IsOperator(c) && c != '(' && c != ')'
    case Cat(a, b) => Printable(a) && Printable(b)
    case Alt(a, b) => Printable(a) && Printable(b)
    case Star(e) => Printable(e)
    case Opt(e) => Printable(e)
    case Plus(e) => Printable(e)
  }

  /** The text of an expression, with parentheses where precedence and left association
      need them. */
  function Print(r: Regex): Infix
    requires Printable(r)
    decreases r, 0
  {
    match r
    case Sym(c) => Leaf(c)
    case Cat(a, b) => Between('.', Wrapped(a, 1), Wrapped(b, 2))
    case Alt(a, b) => Between('|', Wrapped(a, 0), Wrapped(b, 1))
    case Star(e) => After('*', Wrapped(e, 2))
    case Opt(e) => After('?', Wrapped(e, 2))
    case Plus(e) => After('+', Wrapped(e, 2))
  }

  function Wrapped(r: Regex, level: nat): Infix
    requires Printable(r)
    decreases r, 1
  {
    if Level(Print(r)) >= level then Print(r) else Group(Print(r))
  }

  lemma {:induction false} PrintIsText(r: Regex)
    requires Printable(r)
    ensures WellFormed(Print(r)) && Tree(Print(r)) == r
    decreases r
  {
    RanksAreLevels(Print(r));
    PrintIsRanked(r);
  }

  lemma {:induction false} PrintIsRanked(r: Regex)
    requires Printable(r)
    ensures Ranked(Print(r)) && Tree(Print(r)) == r
    decreases r
  {
    match r
    case Sym(c) =>
    case Cat(a, b) => PrintIsRanked(a); PrintIsRanked(b);
    case Alt(a, b) => PrintIsRanked(a); PrintIsRanked(b);
    case Star(e) => PrintIsRanked(e);
    case Opt(e) => PrintIsRanked(e);
    case Plus(e) => PrintIsRanked(e);
  }

  /** Every expression comes back from its printed text: by way of the shunting yard and
      the postfix notation. */
  lemma TreeRoundTrip(r: Regex)
    requires Printable(r)
    ensures var p := ToPostfixText(InfixText(Print(r))); p.Some? && Postfix(p.value, []) == Some([r])
  {
    hide ToPostfixText, Postfix, WellFormed, InfixText, Print;
    PrintIsText(r);
    YardRoundTrip(Print(r));
  }

  // ----- the loops of the program -----

  /** `to_postfix`; a closing parenthesis without an opening one never finishes, which is
      reported as None. */
  method ToPostfix(exp: string) returns (result: Option<string>)
    ensures result == ToPostfixText(exp)
  {
    var output, ops: string := [], [];
    var i := 0;
    assert exp[0..] == exp;
    while i < |exp|
      invariant i <= |exp| && Yard(exp, [], []) == Yard(exp[i..], output, ops)
    {
      var token := exp[i];
      assert exp[i..][0] == token && exp[i..][1..] == exp[i + 1..];
      if IsOperator(token) {
        ghost var moved := Unstack(output, ops, token);
        while |ops| > 0 && ops[|ops| - 1] != '(' && Precedence(ops[|ops| - 1]) >= Precedence(token)
          invariant Unstack(output, ops, token) == moved
          decreases |ops|
        {
          output := output + [ops[|ops| - 1]];
          ops := ops[..|ops| - 1];
        }
        ops := ops + [token];
      } else if token == '(' {
        ops := ops + ['('];
      } else if token == ')' {
        ghost var closed := CloseParen(output, ops);
        while |ops| > 0 && ops[|ops| - 1] != '('
          invariant CloseParen(output, ops) == closed
          decreases |ops|
        {
          output := output + [ops[|ops| - 1]];
          ops := ops[..|ops| - 1];
        }
        if ops == [] {
          return None;
        }
        ops := ops[..|ops| - 1];
      } else {
        output := output + [token];
      }
      i := i + 1;
    }
    ghost var whole := Flush(output, ops);
    while |ops| > 0
      invariant Flush(output, ops) == whole
      decreases |ops|
    {
      output := output + [ops[|ops| - 1]];
      ops := ops[..|ops| - 1];
    }
    result := Some(output);
  }
}
