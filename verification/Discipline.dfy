/** Try discipline: in every reachable state, the `try`s active in each frame are exactly
    those that enclose the frame's instruction in the code. */
module Discipline {
  import opened Syntax
  import opened Values
  import opened Assembly
  import opened Codegen
  import opened Effects
  import opened Compiler
  import opened Machine
  import opened Semantics
  import opened Activation
  import opened Outcomes
  import opened Notes
  import opened Nesting
  import opened Shapes

  predicate HasCode(p: Program, fn: Option<nat>) { fn.None? || fn.value < |p.funs| }

  function ItemsOf(p: Program, fn: Option<nat>): seq<Item>
    requires HasCode(p, fn)
  {
    match fn
    case None => GenModule(p.body)
    case Some(i) => GenFun(p.funs[i])
  }

  /** The deepest nesting that the compiler records with the code. */
  function MaxTries(p: Program, fn: Option<nat>): nat
    requires HasCode(p, fn)
  {
    match fn
    case None => BlockTries(p.body)
    case Some(i) => BlockTries(p.funs[i].body)
  }

  function Addrs(items: seq<Item>, labels: seq<nat>): seq<nat> {
    seq(|labels|, i requires 0 <= i < |labels| => Addr(items, labels[i]))
  }

  /** The frame is about to execute item `k`, with the `try`s of that place. */
  ghost predicate Where(items: seq<Item>, f: Frame, k: nat) {
    && k < |items| && !items[k].Mark? && f.ip == Pos(items, k)
    && f.tries == Addrs(items, NoteAt(items, START, k).Active())
  }

  ghost predicate InPlace(p: Program, f: Frame) {
    HasCode(p, f.fn) && exists k :: Where(ItemsOf(p, f.fn), f, k)
  }

  ghost predicate AllInPlace(p: Program, frames: seq<Frame>) {
    forall i :: 0 <= i < |frames| ==> InPlace(p, frames[i])
  }

  // ----- one piece of code -----

  lemma CodeCharted(p: Program, fn: Option<nat>) returns (env: Env)
    requires Good(p) && HasCode(p, fn)
    ensures Charted(ItemsOf(p, fn), env) && env.depth == MaxTries(p, fn)
  {
    hide GenModule, GenFun, Charted, BlockTries, BlockWellPlaced;
    match fn
    case None => env := ModuleCharted(p.body);
    case Some(i) => env := FunCharted(p.funs[i]);
  }

  /** A frame that has arrived at an item, past any labels there. */
  lemma {:induction false} Arrives(items: seq<Item>, env: Env, f: Frame, j: nat) returns (k: nat)
    requires Charted(items, env) && j < |items| && f.ip == Pos(items, j)
    requires f.tries == Addrs(items, NoteAt(items, START, j).Active())
    ensures Where(items, f, k) && k >= j && NoteAt(items, START, k) == NoteAt(items, START, j)
    decreases |items| - j
  {
    hide Charted, NoteAt, Pos, Addr;
    k := j;
    if items[j].Mark? {
      PastMark(items, env, j);
      k := Arrives(items, env, f, j + 1);
    }
  }

  lemma PastMark(items: seq<Item>, env: Env, j: nat)
    requires Charted(items, env) && j < |items| && items[j].Mark?
    ensures j + 1 < |items| && NoteAt(items, START, j + 1) == NoteAt(items, START, j) && Pos(items, j + 1) == Pos(items, j)
  {
    hide Settled, MarkedOnce;
    assert Notes.Fits(items[j], NoteAt(items, START, j), env);
  }

  /** A frame that has arrived at a label. */
  lemma ArrivesAt(items: seq<Item>, env: Env, f: Frame, l: nat) returns (k: nat)
    requires Charted(items, env) && l in env.labels && f.ip == Addr(items, l)
    requires f.tries == Addrs(items, env.labels[l].nest)
    ensures Where(items, f, k) && NoteAt(items, START, k) == env.labels[l]
  {
    hide Charted, Addr, NoteAt, Pos;
    var j := LabelNote(items, env, l);
    assert env.labels[l].Active() == env.labels[l].nest;
    k := Arrives(items, env, f, j);
  }

  /** The instruction at a frame's place. */
  lemma Fetched(items: seq<Item>, env: Env, f: Frame, k: nat)
    requires Charted(items, env) && Where(items, f, k)
    ensures f.ip < |Assemble(items)| && Assemble(items)[f.ip] == ResolveItem(items[k], items) && Assemble(items)[f.ip].Instr?
    ensures Pos(items, k + 1) == f.ip + 1
    ensures Notes.Fits(items[k], NoteAt(items, START, k), env)
  {
    hide NoteAt, Settled, MarkedOnce, Addr;
    Fetch(items, k);
    assert Notes.Fits(items[k], NoteAt(items, START, k), env);
  }

  /** The note after an instruction that neither jumps nor ends the code. */
  lemma NoteAfter(items: seq<Item>, env: Env, k: nat, op: Opcode)
    requires Charted(items, env) && k < |items| && !items[k].Mark? && items[k].op == op && op !in {Ret, Halt}
    ensures k + 1 < |items| && NoteAt(items, START, k + 1) == After1(items[k], NoteAt(items, START, k))
  {
  }

  /** The jump of an item goes to its label, with the note that the label has. */
  lemma JumpNote(items: seq<Item>, env: Env, f: Frame, k: nat)
    requires Charted(items, env) && Where(items, f, k) && items[k].op in {Jump, JumpIfTrue, JumpIfFalse}
    ensures var n := NoteAt(items, START, k);
            && items[k].Ref? && items[k].lab in env.labels
            && env.labels[items[k].lab] == Note(n.Active(), 0, n.height + Moves(items[k]))
  {
    hide NoteAt, Settled, MarkedOnce, Pos, Addr;
    assert Notes.Fits(items[k], NoteAt(items, START, k), env);
    var n := NoteAt(items, START, k);
    assert n.nest[..|n.nest|] == n.nest;
  }

  lemma GoesOn(items: seq<Item>, env: Env, f: Frame, k: nat, jumps: bool) returns (k1: nat)
    requires Charted(items, env) && Where(items, f, k)
    requires var op := items[k].op;
             && op !in {Ret, Halt, CallFn, ThrowOp}
             && (jumps ==> op in {Jump, JumpIfTrue, JumpIfFalse}) && (op == Jump ==> jumps)
    ensures var r := ResolveItem(items[k], items);
            r.Instr? && Where(items, FrameAfter(f, r.op, r.arg, jumps), k1)
    ensures NoteAt(items, START, k1).height == NoteAt(items, START, k).height + Moves(items[k])
  {
    hide NoteAt, Charted, Pos, Assemble, Settled, Addr;
    Fetched(items, env, f, k);
    var r := ResolveItem(items[k], items);
    if jumps {
      JumpNote(items, env, f, k);
      k1 := ArrivesAt(items, env, FrameAfter(f, r.op, r.arg, true), items[k].lab);
    } else {
      NoteAfter(items, env, k, items[k].op);
      TriesAfter(items, env, f, NoteAt(items, START, k), items[k]);
      k1 := Arrives(items, env, FrameAfter(f, r.op, r.arg, false), k + 1);
    }
  }

  /** Straight on: the `try`s change as the note says. */
  lemma TriesAfter(items: seq<Item>, env: Env, f: Frame, n: Note, it: Item)
    requires !it.Mark? && Notes.Fits(it, n, env) && f.tries == Addrs(items, n.Active()) && it.op != Jump
    ensures var r := ResolveItem(it, items);
            r.Instr? && FrameAfter(f, r.op, r.arg, false).tries == Addrs(items, After1(it, n).Active())
  {
    hide Settled, Addr, Moves;
    var r := ResolveItem(it, items);
    var t := FrameAfter(f, r.op, r.arg, false).tries;
    if it.Ref? && it.op == PushTry {
      assert n.nest[..|n.nest|] == n.nest;
      assert Addrs(items, n.nest + [it.lab]) == Addrs(items, n.nest) + [Addr(items, it.lab)];
      assert (n.nest + [it.lab])[..|n.nest| + 1] == n.nest + [it.lab];
    } else if it.Op? && it.op == PopTry {
      assert |f.tries| == |n.nest| - n.popped;
      assert n.nest[..|n.nest| - n.popped][..|n.nest| - n.popped - 1] == n.nest[..|n.nest| - n.popped - 1];
    } else if it.Op? && it.op == Catch {
      assert n.nest[..|n.nest|] == n.nest;
    }
  }

  /** The innermost catch label that is active at a place. */
  function CatchLabel(n: Note): nat
    requires n.Active() != []
  {
    n.Active()[|n.Active()| - 1]
  }

  /** A caught error continues at the catch label of the innermost active `try`. */
  lemma CatchPlace(items: seq<Item>, env: Env, f: Frame, k: nat) returns (k1: nat)
    requires Charted(items, env) && Where(items, f, k) && f.tries != []
    ensures Where(items, CaughtIn(f), k1)
    ensures var n := NoteAt(items, START, k);
            n.Active() != [] && CatchLabel(n) in env.labels && NoteAt(items, START, k1) == env.labels[CatchLabel(n)]
  {
    hide NoteAt, Charted, Pos, Assemble, Addr, Notes.Fits;
    Fetched(items, env, f, k);
    var n := NoteAt(items, START, k);
    var active := n.Active();
    var l := active[|active| - 1];
    ActiveSettled(items[k], n, env);
    k1 := ArrivesAt(items, env, CaughtIn(f), l);
  }

  lemma ActiveSettled(it: Item, n: Note, env: Env)
    requires Notes.Fits(it, n, env) && n.Active() != []
    ensures var active := n.Active(); var l := active[|active| - 1];
            l in env.labels && env.labels[l].nest == active
  {
    var active := n.Active();
    assert active[|active| - 1] == n.nest[|active| - 1];
  }

  // ----- the whole machine -----

  /** The code that the machine fetches for a frame is the code of its items. */
  lemma FetchedCode(p: Program, img: Image, env: Env, f: Frame, k: nat)
    requires Compiled(p, img) && HasCode(p, f.fn) && Charted(ItemsOf(p, f.fn), env) && Where(ItemsOf(p, f.fn), f, k)
    ensures CodeOf(img, f).Some? && CodeOf(img, f).value.instrs == Assemble(ItemsOf(p, f.fn))
  {
    hide GenModule, GenFun, EmitUpTo, Charted, Where;
  }

  /** A step of a frame in its place is the execution of the item there. */
  lemma StepShape(p: Program, img: Image, env: Env, c: Config, k: nat) returns (sh: Shape)
    requires Compiled(p, img) && c.frames != [] && HasCode(p, Current(c).fn)
    requires Charted(ItemsOf(p, Current(c).fn), env) && Where(ItemsOf(p, Current(c).fn), Current(c), k)
    ensures var items := ItemsOf(p, Current(c).fn);
            var r := ResolveItem(items[k], items);
            var s := Step(img, Running(c));
            r.Instr? && (s.Running? ==> Has(img, c, r.op, r.arg, s.c, sh))
  {
    hide Charted, Compiled, Execute, Has, Assemble, ItemsOf, Pos, NoteAt;
    var items := ItemsOf(p, Current(c).fn);
    FetchedCode(p, img, env, Current(c), k);
    Fetched(items, env, Current(c), k);
    var r := ResolveItem(items[k], items);
    sh := ExecuteShape(img, c, CodeOf(img, Current(c)).value, r.op, r.arg);
  }

  /** A new activation begins at the first instruction, outside any `try`, on no operands. */
  lemma Begins(p: Program, f: Frame) returns (k: nat)
    requires Good(p) && HasCode(p, f.fn) && f.ip == 0 && f.tries == []
    ensures Where(ItemsOf(p, f.fn), f, k) && NoteAt(ItemsOf(p, f.fn), START, k).height == 0
  {
    hide Charted, ItemsOf, Addr, Good;
    var env := CodeCharted(p, f.fn);
    CodeStarts(ItemsOf(p, f.fn), env);
    k := Arrives(ItemsOf(p, f.fn), env, f, 0);
  }

  lemma CodeStarts(items: seq<Item>, env: Env)
    requires Charted(items, env)
    ensures items != [] && Pos(items, 0) == 0 && Addrs(items, NoteAt(items, START, 0).Active()) == []
  {
  }

  /** A call returns to the next instruction, inside the same `try`s. */
  lemma ReturnsTo(p: Program, f: Frame, k: nat) returns (k1: nat)
    requires Good(p) && HasCode(p, f.fn) && Where(ItemsOf(p, f.fn), f, k) && ItemsOf(p, f.fn)[k].op == CallFn
    ensures var items := ItemsOf(p, f.fn);
            && Where(items, f.(ip := f.ip + 1), k1)
            && NoteAt(items, START, k1) == After1(items[k], NoteAt(items, START, k))
            && NoteAt(items, START, k1).height == NoteAt(items, START, k).height + Moves(items[k])
  {
    hide Charted, ItemsOf, Addr, Good, NoteAt, Pos;
    var items := ItemsOf(p, f.fn);
    var env := CodeCharted(p, f.fn);
    Fetched(items, env, f, k);
    NoteAfter(items, env, k, CallFn);
    TriesAfter(items, env, f, NoteAt(items, START, k), items[k]);
    k1 := Arrives(items, env, f.(ip := f.ip + 1), k + 1);
  }

  lemma CallInPlace(p: Program, img: Image, f: Frame, k: nat, callee: Frame)
    requires Good(p) && Compiled(p, img) && IsCallee(img, callee)
    requires HasCode(p, f.fn) && Where(ItemsOf(p, f.fn), f, k) && ItemsOf(p, f.fn)[k].op == CallFn
    ensures InPlace(p, f.(ip := f.ip + 1)) && InPlace(p, callee)
  {
    hide ItemsOf, Good;
    var k1 := ReturnsTo(p, f, k);
    var k2 := Begins(p, callee);
  }

  lemma CaughtInPlace(p: Program, f: Frame)
    requires Good(p) && InPlace(p, f) && f.tries != []
    ensures InPlace(p, CaughtIn(f))
  {
    hide Charted, ItemsOf, Addr, Good, Where;
    var env := CodeCharted(p, f.fn);
    var k :| Where(ItemsOf(p, f.fn), f, k);
    var k1 := CatchPlace(ItemsOf(p, f.fn), env, f, k);
  }

  lemma StepInPlace(p: Program, img: Image, c: Config)
    requires Good(p) && Compiled(p, img) && AllInPlace(p, c.frames)
    ensures var s := Step(img, Running(c)); s.Running? ==> AllInPlace(p, s.c.frames)
  {
    hide Charted, ItemsOf, Good, Compiled, Step, Where, Addr;
    var s := Step(img, Running(c));
    if s.Running? {
      StepNeedsFrame(img, c);
      var f := Current(c);
      assert InPlace(p, f);
      var env := CodeCharted(p, f.fn);
      var k :| Where(ItemsOf(p, f.fn), f, k);
      var sh := StepShape(p, img, env, c, k);
      ShapeInPlace(p, img, env, c, s.c, k, sh);
    }
  }

  lemma StepNeedsFrame(img: Image, c: Config)
    ensures Step(img, Running(c)).Running? ==> c.frames != []
  {
    hide Execute;
  }

  lemma ShapeInPlace(p: Program, img: Image, env: Env, c: Config, c1: Config, k: nat, sh: Shape)
    requires Good(p) && Compiled(p, img) && AllInPlace(p, c.frames) && c.frames != [] && HasCode(p, Current(c).fn)
    requires var items := ItemsOf(p, Current(c).fn);
             && Charted(items, env) && Where(items, Current(c), k)
             && ResolveItem(items[k], items).Instr?
             && Has(img, c, ResolveItem(items[k], items).op, ResolveItem(items[k], items).arg, c1, sh)
    ensures AllInPlace(p, c1.frames)
  {
    hide Charted, ItemsOf, Good, Compiled, Addr, ResolveItem, NoteAt, Pos, Raises, Drops, Rise;
    var items := ItemsOf(p, Current(c).fn);
    var r := ResolveItem(items[k], items);
    SameOp(items, k);
    match sh
    case Continues(jumps) =>
      var k1 := GoesOn(items, env, Current(c), k, jumps);
      assert InPlace(p, FrameAfter(Current(c), r.op, r.arg, jumps));
    case Calls(callee) =>
      CallInPlace(p, img, Current(c), k, callee);
    case Leaves =>
    case Catches(frames, kept) =>
      if frames != c.frames {
        var callee: Frame :| IsCallee(img, callee) && frames == Under(c) + [Current(c).(ip := Current(c).ip + 1), callee];
        CallInPlace(p, img, Current(c), k, callee);
      }
      CatchInPlace(p, frames, kept);
  }

  lemma SameOp(items: seq<Item>, k: nat)
    requires k < |items| && !items[k].Mark? && ResolveItem(items[k], items).Instr?
    ensures ResolveItem(items[k], items).op == items[k].op
  {
  }

  lemma CatchInPlace(p: Program, frames: seq<Frame>, kept: nat)
    requires Good(p) && AllInPlace(p, frames) && 0 < kept <= |frames| && frames[kept - 1].tries != []
    ensures AllInPlace(p, frames[..kept - 1] + [CaughtIn(frames[kept - 1])])
  {
    hide Good, InPlace;
    CaughtInPlace(p, frames[kept - 1]);
  }

  lemma {:induction false} RunInPlace(p: Program, img: Image, globals: map<Name, Value>, n: nat)
    requires Good(p) && Compiled(p, img)
    ensures var s := Run(img, Start(globals), n); s.Running? ==> AllInPlace(p, s.c.frames)
  {
    hide ItemsOf, Good, Compiled, Step, Where;
    if n == 0 {
      var k := Begins(p, Frame(None, 0, 0, 0, []));
      assert InPlace(p, Frame(None, 0, 0, 0, []));
    } else {
      RunInPlace(p, img, globals, n - 1);
      var s := Run(img, Start(globals), n - 1);
      StepRuns(img, s);
      if s.Running? {
        StepInPlace(p, img, s.c);
      }
    }
  }

  lemma StepRuns(img: Image, s: State)
    ensures Step(img, s).Running? ==> s.Running?
  {
  }

  /** Try discipline: in every reachable state every frame is about to execute an
      instruction (a suspended one, to return to it), and its try stack holds exactly the
      addresses of the catch labels that enclose that instruction, innermost on top, less
      those just popped there; so it never grows beyond what the code was compiled with. */
  lemma TryDiscipline(p: Program, img: Image, globals: map<Name, Value>, n: nat, i: nat) returns (k: nat)
    requires Good(p) && Compiled(p, img)
    requires Run(img, Start(globals), n).Running? && i < |Run(img, Start(globals), n).c.frames|
    ensures var f := Run(img, Start(globals), n).c.frames[i];
            && HasCode(p, f.fn)
            && Where(ItemsOf(p, f.fn), f, k)
            && |f.tries| <= MaxTries(p, f.fn)
  {
    hide ItemsOf, Good, Compiled, Run, Where, MaxTries;
    RunInPlace(p, img, globals, n);
    var f := Run(img, Start(globals), n).c.frames[i];
    assert InPlace(p, f);
    k :| Where(ItemsOf(p, f.fn), f, k);
    var env := CodeCharted(p, f.fn);
    FewTries(ItemsOf(p, f.fn), env, f, k);
  }

  lemma FewTries(items: seq<Item>, env: Env, f: Frame, k: nat)
    requires Charted(items, env) && Where(items, f, k)
    ensures |f.tries| <= env.depth
  {
    hide NoteAt, MarkedOnce;
    assert Notes.Fits(items[k], NoteAt(items, START, k), env);
  }
}
