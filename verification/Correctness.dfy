/** The compiler as a whole: tokens in, a run of the machine on the encoded words out. */
module Correctness {
  import opened Syntax
  import opened Values
  import opened Assembly
  import opened Codegen
  import opened Machine
  import opened Semantics
  import opened Activation
  import opened Outcomes
  import opened Parser
  import opened Compiler
  import opened Meaning
  import opened Pratt
  import opened Scripts

  // ----- function declarations are numbered as they appear -----

  /** `part` stands at index `f` of `funs`. */
  ghost predicate Holds(funs: seq<FunDecl>, f: nat, part: seq<FunDecl>) {
    f + |part| <= |funs| && funs[f..f + |part|] == part
  }

  lemma HoldsBoth(funs: seq<FunDecl>, f: nat, a: seq<FunDecl>, b: seq<FunDecl>)
    requires Holds(funs, f, a + b)
    ensures Holds(funs, f, a) && Holds(funs, f + |a|, b)
  {
    var s := funs[f..f + |a + b|];
    assert s[..|a|] == a && s[|a|..] == b;
    assert funs[f..f + |a|] == s[..|a|];
    assert funs[f + |a|..f + |a| + |b|] == s[|a|..];
  }

  lemma {:induction false} StmtLinked(toks: seq<Token>, pos: nat, f: nat, funs: seq<FunDecl>)
    requires ParseStmt(toks, pos, f).Ok? && Holds(funs, f, StmtFuns(ParseStmt(toks, pos, f).tree))
    ensures Linked(ParseStmt(toks, pos, f).tree, funs)
    decreases |toks| - pos, 1
  {
    hide ParseIf, ParseWhile, ParseFor, ParseTry, ParseFun, ParseDecls, ParseExpr, Parser.Expect, ParseExprSemi, StmtFuns, Holds;
    match Peek(toks, pos)
    case KwFunction => FunLinked(toks, pos, f, funs);
    case KwIf => IfLinked(toks, pos, f, funs);
    case KwFor => ForLinked(toks, pos, f, funs);
    case KwWhile => WhileLinked(toks, pos, f, funs);
    case KwTry => TryLinked(toks, pos, f, funs);
    case _ =>
  }

  lemma FunLinked(toks: seq<Token>, pos: nat, f: nat, funs: seq<FunDecl>)
    requires Peek(toks, pos) == KwFunction
    requires ParseFun(toks, pos, f).Ok? && Holds(funs, f, StmtFuns(ParseFun(toks, pos, f).tree))
    ensures Linked(ParseFun(toks, pos, f).tree, funs)
  {
    hide ParseFun;
    FunReads(toks, pos, f);
    var s := ParseFun(toks, pos, f).tree;
    assert funs[f..f + 1][0] == s.decl;
  }

  lemma {:induction false} BracesLinked(toks: seq<Token>, pos: nat, f: nat, funs: seq<FunDecl>)
    requires ParseBraces(toks, pos, f).Ok? && Holds(funs, f, BlockFuns(ParseBraces(toks, pos, f).tree))
    ensures BlockLinked(ParseBraces(toks, pos, f).tree, funs)
    decreases |toks| - pos, 0
  {
    hide ParseBlock, ParseBraces, Holds, BlockFuns, BlockLinked;
    BracesRead(toks, pos, f);
    BlockLinkedAs(toks, pos + 1, f, RightBrace, funs);
  }

  lemma {:induction false} BlockLinkedAs(toks: seq<Token>, pos: nat, f: nat, end: Token, funs: seq<FunDecl>)
    requires ParseBlock(toks, pos, f, end).Ok? && Holds(funs, f, BlockFuns(ParseBlock(toks, pos, f, end).tree))
    ensures BlockLinked(ParseBlock(toks, pos, f, end).tree, funs)
    decreases |toks| - pos, 2
  {
    hide ParseBlock, ParseStmt, Holds, Linked, StmtFuns;
    BlockReads(toks, pos, f, end);
    if Peek(toks, pos) != end {
      var s := ParseStmt(toks, pos, f);
      var rest := ParseBlock(toks, s.pos, f + |StmtFuns(s.tree)|, end);
      HoldsBoth(funs, f, StmtFuns(s.tree), BlockFuns(rest.tree));
      StmtLinked(toks, pos, f, funs);
      BlockLinkedAs(toks, s.pos, f + |StmtFuns(s.tree)|, end, funs);
    }
  }

  lemma {:induction false} IfLinked(toks: seq<Token>, pos: nat, f: nat, funs: seq<FunDecl>)
    requires Peek(toks, pos) == KwIf
    requires ParseIf(toks, pos, f).Ok? && Holds(funs, f, StmtFuns(ParseIf(toks, pos, f).tree))
    ensures Linked(ParseIf(toks, pos, f).tree, funs)
    decreases |toks| - pos, 0
  {
    hide ParseIf, ParseExpr, ParseBraces, ParseElse, Holds, BlockFuns, ElseFuns, BlockLinked, ElseLinked;
    IfReads(toks, pos, f);
    var c := ParseExpr(toks, pos + 2);
    var thn := ParseBraces(toks, c.pos + 1, f);
    var els := ParseElse(toks, thn.pos, f + |BlockFuns(thn.tree)|);
    HoldsBoth(funs, f, BlockFuns(thn.tree), ElseFuns(els.tree));
    BracesLinked(toks, c.pos + 1, f, funs);
    ElseLinkedAs(toks, thn.pos, f + |BlockFuns(thn.tree)|, funs);
  }

  lemma {:induction false} ElseLinkedAs(toks: seq<Token>, pos: nat, f: nat, funs: seq<FunDecl>)
    requires pos <= |toks|
    requires ParseElse(toks, pos, f).Ok? && Holds(funs, f, ElseFuns(ParseElse(toks, pos, f).tree))
    ensures ElseLinked(ParseElse(toks, pos, f).tree, funs)
    decreases |toks| - pos, 1
  {
    hide ParseIf, ParseBraces, Holds, BlockFuns, StmtFuns, BlockLinked, Linked;
    if Peek(toks, pos) == KwElse {
      if Peek(toks, pos + 1) == KwIf {
        IfLinked(toks, pos + 1, f, funs);
      } else {
        BracesLinked(toks, pos + 1, f, funs);
      }
    }
  }

  lemma {:induction false} WhileLinked(toks: seq<Token>, pos: nat, f: nat, funs: seq<FunDecl>)
    requires Peek(toks, pos) == KwWhile
    requires ParseWhile(toks, pos, f).Ok? && Holds(funs, f, StmtFuns(ParseWhile(toks, pos, f).tree))
    ensures Linked(ParseWhile(toks, pos, f).tree, funs)
    decreases |toks| - pos, 0
  {
    hide ParseWhile, ParseExpr, ParseBraces, Holds, BlockFuns, BlockLinked;
    WhileReads(toks, pos, f);
    BracesLinked(toks, ParseExpr(toks, pos + 2).pos + 1, f, funs);
  }

  lemma {:induction false} ForLinked(toks: seq<Token>, pos: nat, f: nat, funs: seq<FunDecl>)
    requires Peek(toks, pos) == KwFor
    requires ParseFor(toks, pos, f).Ok? && Holds(funs, f, StmtFuns(ParseFor(toks, pos, f).tree))
    ensures Linked(ParseFor(toks, pos, f).tree, funs)
    decreases |toks| - pos, 0
  {
    hide ParseFor, ParseInit, ParseOptional, ParseBraces, Holds, BlockFuns, BlockLinked;
    ForReads(toks, pos, f);
    var init := ParseInit(toks, pos + 2, f);
    var step := ParseOptional(toks, ParseOptional(toks, init.pos, Semicolon).pos, RightParen);
    var g := f + |InitFuns(init.tree)|;
    var body := ParseBraces(toks, step.pos, g);
    HoldsBoth(funs, f, InitFuns(init.tree), BlockFuns(body.tree));
    InitLinked(toks, pos + 2, f, funs);
    BracesLinked(toks, step.pos, g, funs);
  }

  lemma {:induction false} InitLinked(toks: seq<Token>, pos: nat, f: nat, funs: seq<FunDecl>)
    requires ParseInit(toks, pos, f).Ok? && Holds(funs, f, InitFuns(ParseInit(toks, pos, f).tree))
    ensures var init := ParseInit(toks, pos, f).tree; init.Some? ==> Linked(init.value, funs)
    decreases |toks| - pos, 2
  {
    hide ParseStmt, Holds, StmtFuns, Linked;
    if Peek(toks, pos) != Semicolon {
      StmtLinked(toks, pos, f, funs);
    }
  }

  lemma {:induction false} TryLinked(toks: seq<Token>, pos: nat, f: nat, funs: seq<FunDecl>)
    requires Peek(toks, pos) == KwTry
    requires ParseTry(toks, pos, f).Ok? && Holds(funs, f, StmtFuns(ParseTry(toks, pos, f).tree))
    ensures Linked(ParseTry(toks, pos, f).tree, funs)
    decreases |toks| - pos, 0
  {
    hide ParseTry, ParseBraces, ParseCatchName, Holds, BlockFuns, BlockLinked;
    TryReads(toks, pos, f);
    var body := ParseBraces(toks, pos + 1, f);
    var name := ParseCatchName(toks, body.pos + 1);
    var handler := ParseBraces(toks, name.pos, f + |BlockFuns(body.tree)|);
    HoldsBoth(funs, f, BlockFuns(body.tree), BlockFuns(handler.tree));
    BracesLinked(toks, pos + 1, f, funs);
    BracesLinked(toks, name.pos, f + |BlockFuns(body.tree)|, funs);
  }

  // ----- function bodies -----

  /** Declarations of well-placed statements have well-placed bodies. */
  lemma {:induction false} BodiesPlaced(ss: List<Stmt>, inLoop: bool, i: nat)
    requires BlockWellPlaced(ss, false, inLoop) && i < |BlockFuns(ss)|
    ensures BlockWellPlaced(BlockFuns(ss)[i].body, true, false)
    decreases ss, 0
  {
    match ss
    case Cons(s, rest) =>
      if i < |StmtFuns(s)| {
        BodyPlaced(s, inLoop, i);
      } else {
        BodiesPlaced(rest, inLoop, i - |StmtFuns(s)|);
      }
  }

  lemma {:induction false} BodyPlaced(s: Stmt, inLoop: bool, i: nat)
    requires WellPlaced(s, false, inLoop) && i < |StmtFuns(s)|
    ensures BlockWellPlaced(StmtFuns(s)[i].body, true, false)
    decreases s, 0
  {
    match s
    case If(_, t, els) =>
      if i < |BlockFuns(t)| {
        BodiesPlaced(t, inLoop, i);
      } else {
        ElseBodiesPlaced(els, inLoop, i - |BlockFuns(t)|);
      }
    case While(_, body) => BodiesPlaced(body, true, i);
    case For(init, _, _, body) =>
      if i < |InitFuns(init)| {
        BodyPlaced(init.value, inLoop, i);
      } else {
        BodiesPlaced(body, true, i - |InitFuns(init)|);
      }
    case Try(body, _, handler) =>
      if i < |BlockFuns(body)| {
        BodiesPlaced(body, inLoop, i);
      } else {
        BodiesPlaced(handler, inLoop, i - |BlockFuns(body)|);
      }
    case Fun(_, d) =>
  }

  lemma {:induction false} ElseBodiesPlaced(els: Else, inLoop: bool, i: nat)
    requires ElseWellPlaced(els, false, inLoop) && i < |ElseFuns(els)|
    ensures BlockWellPlaced(ElseFuns(els)[i].body, true, false)
    decreases els, 0
  {
    match els
    case ElseIf(s) => BodyPlaced(s, inLoop, i);
    case ElseBlock(body) => BodiesPlaced(body, inLoop, i);
  }

  /** A function body declares nothing, so there is nothing to link. */
  lemma {:induction false} PlainLinked(ss: List<Stmt>, inLoop: bool, funs: seq<FunDecl>)
    requires BlockWellPlaced(ss, true, inLoop)
    ensures BlockLinked(ss, funs)
    decreases ss, 0
  {
    match ss
    case Nil =>
    case Cons(s, rest) =>
      PlainStmtLinked(s, inLoop, funs);
      PlainLinked(rest, inLoop, funs);
  }

  lemma {:induction false} PlainStmtLinked(s: Stmt, inLoop: bool, funs: seq<FunDecl>)
    requires WellPlaced(s, true, inLoop)
    ensures Linked(s, funs)
    decreases s, 0
  {
    match s
    case If(_, t, els) =>
      PlainLinked(t, inLoop, funs);
      PlainElseLinked(els, inLoop, funs);
    case While(_, body) => PlainLinked(body, true, funs);
    case For(init, _, _, body) =>
      if init.Some? {
        PlainStmtLinked(init.value, inLoop, funs);
      }
      PlainLinked(body, true, funs);
    case Try(body, _, handler) =>
      PlainLinked(body, inLoop, funs);
      PlainLinked(handler, inLoop, funs);
    case _ =>
  }

  lemma {:induction false} PlainElseLinked(els: Else, inLoop: bool, funs: seq<FunDecl>)
    requires ElseWellPlaced(els, true, inLoop)
    ensures ElseLinked(els, funs)
    decreases els, 0
  {
    match els
    case NoElse =>
    case ElseIf(s) => PlainStmtLinked(s, inLoop, funs);
    case ElseBlock(body) => PlainLinked(body, inLoop, funs);
  }

  // ----- from tokens to runs -----

  predicate Accepted(toks: seq<Token>) {
    ParseModule(toks).Ok? && BlockWellPlaced(ParseModule(toks).tree, false, false)
  }

  function ProgramOf(toks: seq<Token>, strings: seq<string>): Program
    requires ParseModule(toks).Ok?
  {
    var body := ParseModule(toks).tree;
    Program(body, BlockFuns(body), strings)
  }

  lemma AcceptedIsGood(toks: seq<Token>, strings: seq<string>)
    requires Accepted(toks)
    ensures Good(ProgramOf(toks, strings))
  {
    hide ParseBlock, BlockWellPlaced, BlockLinked, BlockFuns;
    var p := ProgramOf(toks, strings);
    assert Holds(p.funs, 0, p.funs);
    BlockLinkedAs(toks, 0, 0, Eof, p.funs);
    forall i | 0 <= i < |p.funs|
      ensures BlockWellPlaced(p.funs[i].body, true, false) && BlockLinked(p.funs[i].body, p.funs)
    {
      BodiesPlaced(p.body, false, i);
      PlainLinked(p.funs[i].body, false, p.funs);
    }
  }

  /** What the dispatch loop makes of encoded words; a word without an opcode is nothing
      it can execute. */
  function DecodeAll(words: seq<nat>): seq<Instr> {
    seq(|words|, i requires 0 <= i < |words| => match Decode(words[i]) case Some(x) => x case None => Instr2(Halt, 0, 0))
  }

  function Loaded(c: CompiledCode): Code {
    Code(DecodeAll(c.words), c.consts, c.name, c.arity)
  }

  function LoadedAll(cs: seq<CompiledCode>): seq<Code> {
    seq(|cs|, i requires 0 <= i < |cs| => Loaded(cs[i]))
  }

  function ImageOf(main: CompiledCode, funs: seq<CompiledCode>, strings: seq<string>): Image {
    Image(Loaded(main), LoadedAll(funs), strings)
  }

  /** No operand is too wide for its field. */
  predicate AllFit(items: seq<Item>) {
    forall i :: 0 <= i < |Assemble(items)| ==> FitsWord(Assemble(items)[i])
  }

  predicate CodeFits(p: Program) {
    AllFit(GenModule(p.body)) && forall i :: 0 <= i < |p.funs| ==> AllFit(GenFun(p.funs[i]))
  }

  lemma WordsDecode(items: seq<Item>)
    requires AllFit(items)
    ensures DecodeAll(EncodeAll(Assemble(items))) == Assemble(items)
  {
    hide Encode, Decode, FitsWord, EmitUpTo;
    var code := Assemble(items);
    forall i | 0 <= i < |code|
      ensures Decode(EncodeAll(code)[i]) == Some(code[i])
    {
      DecodeEncode(code[i]);
    }
  }

  /** The image built from the compiler's words is the one the semantics talks about. */
  lemma ImageIsCompiled(toks: seq<Token>, strings: seq<string>)
    requires Accepted(toks) && CodeFits(ProgramOf(toks, strings))
    ensures var p := ProgramOf(toks, strings);
            Compiled(p, ImageOf(CodeForModule(p.body), Codes(p.funs), strings))
  {
    hide GenModule, GenFun, AllFit, DecodeAll, EncodeAll, Assemble, ParseModule, BlockFuns, BlockConsts, BlockTries, AfterBlock;
    var p := ProgramOf(toks, strings);
    WordsDecode(GenModule(p.body));
    forall i | 0 <= i < |p.funs|
      ensures Loaded(CodeForFun(p.funs[i])) == FunCode(p.funs[i])
    {
      WordsDecode(GenFun(p.funs[i]));
    }
  }

  /** The image of an accepted script. */
  function ScriptImage(toks: seq<Token>, strings: seq<string>): Image
    requires ParseModule(toks).Ok?
  {
    var p := ProgramOf(toks, strings);
    ImageOf(CodeForModule(p.body), Codes(p.funs), strings)
  }

  /** The compiler is correct: whatever tokens it accepts, running the words it produces
      ends exactly as the program it has read says, and never goes wrong. */
  lemma CompilerCorrect(toks: seq<Token>, strings: seq<string>, globals: map<Name, Value>)
    requires Accepted(toks) && CodeFits(ProgramOf(toks, strings))
    ensures forall n :: Run(ScriptImage(toks, strings), Start(globals), n) != Stuck
    ensures forall o: State :: !o.Running? ==>
              (Reaches(ScriptImage(toks, strings), Start(globals), o) <==> Concludes(ProgramOf(toks, strings), globals, o))
  {
    hide ParseModule, BlockWellPlaced, CodeForModule, Codes, Reaches, Concludes, CodeFits, Compiled, Good, Run, Loaded, LoadedAll;
    var p, img := ProgramOf(toks, strings), ScriptImage(toks, strings);
    AcceptedIsGood(toks, strings);
    ImageIsCompiled(toks, strings);
    forall o: State | !o.Running?
      ensures Reaches(img, Start(globals), o) <==> Concludes(p, globals, o)
    {
      MeaningPreserved(p, img, globals, o);
    }
    forall n: nat
      ensures Run(img, Start(globals), n) != Stuck
    {
      NeverStuck(p, img, globals, n);
    }
  }

  method CompileAndLoad(toks: seq<Token>, strings: seq<string>) returns (ok: bool, img: Image)
    ensures ok <==> Accepted(toks)
    ensures ok ==> img == ScriptImage(toks, strings)
  {
    hide ParseModule, BlockWellPlaced, CodeForModule, Codes, Loaded, LoadedAll;
    var main, funs;
    ok, main, funs := CompileModule(toks);
    img := ImageOf(main, funs, strings);
  }

  /** Printing an operator tree, as shortly as can be, and compiling the tokens emits
      the code of that tree. */
  method CompilePrinted(e: Expr) returns (words: seq<nat>)
    requires Printable(e)
    ensures words == EncodeAll(Assemble(GenExpr(e, Global, 0, 0) + [Op(Pop, 0), Op(Halt, 0)]))
  {
    hide Bare, GenExpr, EncodeAll, Assemble, BlockConsts, BlockTries, BlockFuns, Codes, ParseModule;
    PrintedModule(e);
    var body := Cons(ExprStmt(e), Nil);
    PlainStatement(e);
    var ok, main, _ := CompileModule(Bare(e) + [Semicolon]);
    words := main.words;
  }

  /** Every script of the grammar compiles to the code of its tree, if its `break`, `continue`,
      `return` and `function` are where they may be. */
  method CompileText(ls: List<Line>) returns (ok: bool, main: CompiledCode, funs: seq<CompiledCode>)
    requires AllProper(ls)
    ensures ok == BlockWellPlaced(BlockTree(ls, 0), false, false)
    ensures ok ==> main == CodeForModule(BlockTree(ls, 0)) && funs == Codes(BlockFuns(BlockTree(ls, 0)))
  {
    hide AllProper, BlockTokens, BlockTree, ParseModule, BlockWellPlaced, CodeForModule, Codes, BlockFuns;
    ModuleIsRead(ls);
    ok, main, funs := CompileModule(BlockTokens(ls));
  }

  /** And only such scripts are accepted. */
  lemma AcceptedIsText(toks: seq<Token>) returns (ls: List<Line>)
    requires Accepted(toks)
    ensures var n := |BlockTokens(ls)|;
            && AllProper(ls) && BlockWellPlaced(BlockTree(ls, 0), false, false)
            && n <= |toks| && toks[..n] == BlockTokens(ls) && Peek(toks, n) == Eof && ParseModule(toks).tree == BlockTree(ls, 0)
  {
    hide AllProper, BlockTokens, BlockTree, ParseModule, BlockWellPlaced;
    ls := ReadIsModule(toks);
  }

  lemma PlainStatement(e: Expr)
    ensures BlockWellPlaced(Cons(ExprStmt(e), Nil), false, false)
    ensures GenModule(Cons(ExprStmt(e), Nil)) == GenExpr(e, Global, 0, 0) + [Op(Pop, 0), Op(Halt, 0)]
  {
    hide GenExpr;
    var g := GenExpr(e, Global, 0, 0);
    assert GenBlock(Cons(ExprStmt(e), Nil), Global, None, 0, 0) == g + [Op(Pop, 0)] + [];
  }
}
