/** Where caught errors arrive: on how many operands, and in which frame. */
module Catching {
  import opened Syntax
  import opened Values
  import opened Assembly
  import opened Codegen
  import opened Effects
  import opened Compiler
  import opened Machine
  import opened Semantics
  import opened Activation
  import opened Outcomes
  import opened Labels
  import opened Notes
  import opened Nesting
  import opened Shapes
  import opened Discipline

  /** The height noted at the innermost active catch label. */
  function CatchHeight(items: seq<Item>, n: Note): int
    requires n.Active() != []
  {
    match MarkIndex(items, CatchLabel(n))
    case Some(j) => NoteAt(items, START, j).height
    case None => 0
  }

  lemma CatchNote(items: seq<Item>, env: Env, n: Note)
    requires Charted(items, env) && n.Active() != [] && CatchLabel(n) in env.labels
    ensures CatchHeight(items, n) == env.labels[CatchLabel(n)].height
  {
    hide Typed, MarkedOnce, NoteAt;
    LabelMarked(items, env, CatchLabel(n));
  }

  lemma LabelMarked(items: seq<Item>, env: Env, l: nat)
    requires Charted(items, env) && l in env.labels
    ensures MarkIndex(items, l).Some? && NoteAt(items, START, MarkIndex(items, l).value) == env.labels[l]
  {
    hide NoteAt, MarkedOnce, Settled;
    var j := MarkIndex(items, l).value;
    assert Notes.Fits(items[j], NoteAt(items, START, j), env);
  }

  /** An instruction uses no operand that was there when its innermost `try` began. */
  lemma AboveCatch(items: seq<Item>, env: Env, f: Frame, k: nat)
    requires Charted(items, env) && Where(items, f, k) && f.tries != []
    ensures var n := NoteAt(items, START, k); n.Active() != [] && n.height - Takes(items[k]) >= CatchHeight(items, n)
  {
    hide Typed, MarkedOnce, NoteAt, Takes, Pos;
    Fetched(items, env, f, k);
    var n := NoteAt(items, START, k);
    ActiveSettled(items[k], n, env);
    CatchNote(items, env, n);
    var active := n.Active();
    assert CatchLabel(n) == n.nest[|active| - 1];
  }

  /** A frame is at one place only. */
  lemma OnePlace(items: seq<Item>, f: Frame, k: nat, k1: nat)
    requires Where(items, f, k) && Where(items, f, k1)
    ensures k == k1
  {
    hide NoteAt;
    if k < k1 {
      EmittedAt(items, k1, k);
    } else if k1 < k {
      EmittedAt(items, k, k1);
    }
  }

  // ----- suspended frames -----

  /** The frame has called another and will go on behind its call. */
  ghost predicate Calling(p: Program, f: Frame) {
    && HasCode(p, f.fn) && f.ip > 0
    && exists k: nat :: CalledAt(ItemsOf(p, f.fn), f, k)
  }

  ghost predicate CalledAt(items: seq<Item>, f: Frame, k: nat) {
    f.ip > 0 && Where(items, f.(ip := f.ip - 1), k) && items[k].op == CallFn
  }

  ghost predicate Suspended(p: Program, frames: seq<Frame>) {
    forall i :: 0 <= i < |frames| - 1 ==> Calling(p, frames[i])
  }

  /** A suspended frame keeps the place of its callee's result above its `try`. */
  lemma CallingAbove(p: Program, f: Frame, k: nat)
    requires Good(p) && Calling(p, f) && Where(ItemsOf(p, f.fn), f, k) && f.tries != []
    ensures var n := NoteAt(ItemsOf(p, f.fn), START, k); n.Active() != [] && n.height > CatchHeight(ItemsOf(p, f.fn), n)
  {
    hide Good, ItemsOf, NoteAt, Pos, CatchHeight, Addr, Charted;
    var items := ItemsOf(p, f.fn);
    var env := CodeCharted(p, f.fn);
    var f0 := f.(ip := f.ip - 1);
    var k0: nat :| CalledAt(items, f, k0);
    var k1 := ReturnsTo(p, f0, k0);
    assert f0.(ip := f0.ip + 1) == f;
    OnePlace(items, f, k, k1);
    Fetched(items, env, f0, k0);
    AboveCatch(items, env, f0, k0);
    CallNote(items, items[k0], NoteAt(items, START, k0), env);
  }

  lemma CallNote(items: seq<Item>, it: Item, n: Note, env: Env)
    requires !it.Mark? && Notes.Fits(it, n, env) && it.op == CallFn && n.Active() != []
    ensures After1(it, n).height == n.height - Takes(it) + 1 && After1(it, n).Active() == n.Active()
    ensures CatchHeight(items, After1(it, n)) == CatchHeight(items, n)
  {
    hide Settled, NoteAt;
  }

  lemma ShapeSuspended(p: Program, img: Image, c: Config, c1: Config, k: nat, sh: Shape)
    requires c.frames != [] && Suspended(p, c.frames) && HasCode(p, Current(c).fn)
    requires var items := ItemsOf(p, Current(c).fn);
             && Where(items, Current(c), k) && ResolveItem(items[k], items).Instr?
             && Has(img, c, ResolveItem(items[k], items).op, ResolveItem(items[k], items).arg, c1, sh)
    ensures Suspended(p, c1.frames)
  {
    hide ItemsOf, NoteAt, Pos, Addr, ResolveItem, Raises;
    var items := ItemsOf(p, Current(c).fn);
    SameOp(items, k);
    match sh
    case Continues(jumps) => SamePrefix(p, c.frames, c1.frames);
    case Calls(callee) =>
      var f := Current(c).(ip := Current(c).ip + 1);
      assert f.(ip := f.ip - 1) == Current(c);
      assert CalledAt(items, f, k);
      forall i | 0 <= i < |c1.frames| - 1
        ensures Calling(p, c1.frames[i])
      {
        assert i < |c.frames| - 1 ==> c1.frames[i] == c.frames[i];
      }
    case Leaves => SamePrefix(p, c.frames, c1.frames);
    case Catches(frames, kept) => SamePrefix(p, c.frames, c1.frames);
  }

  lemma SamePrefix(p: Program, frames: seq<Frame>, frames1: seq<Frame>)
    requires Suspended(p, frames) && |frames1| <= |frames| && forall i :: 0 <= i < |frames1| - 1 ==> frames1[i] == frames[i]
    ensures Suspended(p, frames1)
  {
    hide Calling;
  }

  lemma StepSuspended(p: Program, img: Image, c: Config)
    requires Good(p) && Compiled(p, img) && AllInPlace(p, c.frames) && Suspended(p, c.frames)
    ensures var s := Step(img, Running(c)); s.Running? ==> Suspended(p, s.c.frames)
  {
    hide Charted, ItemsOf, Good, Compiled, Step, Where, Addr;
    var s := Step(img, Running(c));
    if s.Running? {
      StepNeedsFrame(img, c);
      var f := Current(c);
      assert InPlace(p, f);
      var env := CodeCharted(p, f.fn);
      var k :| Where(ItemsOf(p, f.fn), f, k);
      var sh := StepShape(p, img, env, c, k);
      ShapeSuspended(p, img, c, s.c, k, sh);
    }
  }

  /** In every reachable state every frame but the last has called the one above it. */
  lemma {:induction false} RunSuspended(p: Program, img: Image, globals: map<Name, Value>, n: nat)
    requires Good(p) && Compiled(p, img)
    ensures var s := Run(img, Start(globals), n); s.Running? ==> Suspended(p, s.c.frames)
  {
    hide Good, Compiled, Step, Calling, AllInPlace;
    if n > 0 {
      RunSuspended(p, img, globals, n - 1);
      RunInPlace(p, img, globals, n - 1);
      var s := Run(img, Start(globals), n - 1);
      StepRuns(img, s);
      if s.Running? {
        StepSuspended(p, img, s.c);
      }
    }
  }
}
