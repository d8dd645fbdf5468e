/** Stack bound: as long as caught errors leave no operands behind, the operands of every
    frame stay within the size that the compiler has added up in a straight line.  Errors
    that do leave operands make them grow without bound. */
module StackBound {
  import opened Syntax
  import opened Values
  import opened Assembly
  import opened Codegen
  import opened Effects
  import opened Compiler
  import opened Machine
  import opened Semantics
  import opened Activation
  import opened Outcomes
  import opened Correctness
  import opened Labels
  import opened Notes
  import opened Nesting
  import opened Shapes
  import opened Discipline
  import opened Catching

  /** The stack below a frame's operands: the callers' values, the function value and the
      arguments. */
  function Floor(f: Frame): nat { if f.fn.None? then 0 else f.bp + 1 + f.nargs }

  /** The height at which frame `i` runs, or will run again when its callee has returned. */
  function Level(size: nat, frames: seq<Frame>, i: nat): nat
    requires i < |frames|
  {
    if i == |frames| - 1 then size else frames[i + 1].bp + 1
  }

  /** The frame is at item `k`, on as many operands as the note there says. */
  ghost predicate Stands(p: Program, f: Frame, k: nat, level: nat) {
    && HasCode(p, f.fn) && Where(ItemsOf(p, f.fn), f, k)
    && level == Floor(f) + NoteAt(ItemsOf(p, f.fn), START, k).height
  }

  ghost predicate StandsAt(p: Program, f: Frame, level: nat) {
    exists k :: Stands(p, f, k, level)
  }

  ghost predicate AllStand(p: Program, size: nat, frames: seq<Frame>) {
    forall i :: 0 <= i < |frames| ==> StandsAt(p, frames[i], Level(size, frames, i))
  }

  /** An error that the frame raises at item `k` leaves no operands behind: a `try` is
      active in this frame itself, and its catch label has as many operands as there are
      here when the instruction has popped its own. */
  ghost predicate LeavesNothing(p: Program, f: Frame, k: nat) {
    && HasCode(p, f.fn) && Where(ItemsOf(p, f.fn), f, k) && f.tries != []
    && var items := ItemsOf(p, f.fn);
       var n := NoteAt(items, START, k);
       n.height - Drops(items[k].op) == CatchHeight(items, n)
  }

  ghost predicate RaisesCleanly(p: Program, c: Config) {
    c.frames != [] && exists k: nat :: LeavesNothing(p, Current(c), k)
  }

  /** The next step raises an error, and some frame catches it. */
  ghost predicate Caught(img: Image, s: State) {
    s.Running? && RaisesNow(img, s.c) && Step(img, s).Running?
  }

  /** Every error that is caught in the first `n` steps is raised cleanly. */
  ghost predicate CleanCatches(p: Program, img: Image, globals: map<Name, Value>, n: nat) {
    forall m :: 0 <= m < n && Caught(img, Run(img, Start(globals), m)) ==> RaisesCleanly(p, Run(img, Start(globals), m).c)
  }

  ghost predicate StandsThroughout(p: Program, img: Image, globals: map<Name, Value>, n: nat) {
    forall m :: 0 <= m <= n ==> StandsFor(p, Run(img, Start(globals), m))
  }

  ghost predicate StandsFor(p: Program, s: State) {
    s.Running? ==> AllStand(p, |s.c.stack|, s.c.frames)
  }

  // ----- heights are those of the notes -----

  lemma RiseIsMoves(items: seq<Item>, it: Item, n: Note, env: Env)
    requires !it.Mark? && Notes.Fits(it, n, env) && ResolveItem(it, items).Instr?
    ensures var r := ResolveItem(it, items); Rise(r.op, r.arg) == Moves(it)
  {
    hide Settled, Addr;
  }

  /** One step: the heights stay those of the notes if and only if no error is raised that
      leaves operands behind. */
  lemma StepStandsIff(p: Program, img: Image, c: Config)
    requires Good(p) && Compiled(p, img) && AllStand(p, |c.stack|, c.frames) && Suspended(p, c.frames)
    ensures var s := Step(img, Running(c));
            s.Running? ==> (AllStand(p, |s.c.stack|, s.c.frames) <==> (RaisesNow(img, c) ==> RaisesCleanly(p, c)))
  {
    hide ItemsOf, Good, Compiled, Step, Where, NoteAt, Raises, Suspended, LeavesNothing;
    var s := Step(img, Running(c));
    if s.Running? {
      StepNeedsFrame(img, c);
      var f := Current(c);
      assert Level(|c.stack|, c.frames, |c.frames| - 1) == |c.stack|;
      assert StandsAt(p, f, |c.stack|);
      var k :| Stands(p, f, k, |c.stack|);
      var env := CodeCharted(p, f.fn);
      var sh := StepShape(p, img, env, c, k);
      FetchesItem(p, img, env, c, k);
      ShapeStands(p, img, env, c, s.c, k, sh);
    }
  }

  /** What the machine fetches is the item. */
  lemma FetchesItem(p: Program, img: Image, env: Env, c: Config, k: nat)
    requires Compiled(p, img) && c.frames != [] && HasCode(p, Current(c).fn)
    requires Charted(ItemsOf(p, Current(c).fn), env) && Where(ItemsOf(p, Current(c).fn), Current(c), k)
    ensures var items := ItemsOf(p, Current(c).fn);
            var r := ResolveItem(items[k], items);
            r.Instr? && (RaisesNow(img, c) <==> Raises(img, c, r.op, r.arg))
  {
    hide Charted, Compiled, Raises, Assemble, ItemsOf, Pos, NoteAt;
    FetchedCode(p, img, env, Current(c), k);
    Fetched(ItemsOf(p, Current(c).fn), env, Current(c), k);
  }

  /** Frames below the running one are not affected. */
  lemma BelowStand(p: Program, c: Config, size: nat, frames: seq<Frame>, i: nat)
    requires AllStand(p, |c.stack|, c.frames) && c.frames != [] && i < |c.frames| - 1
    requires i < |frames| && frames[i] == c.frames[i]
    requires i + 1 < |frames| && frames[i + 1].bp == c.frames[i + 1].bp
    ensures StandsAt(p, frames[i], Level(size, frames, i))
  {
    hide Stands;
    assert StandsAt(p, c.frames[i], Level(|c.stack|, c.frames, i));
  }

  lemma ShapeStands(p: Program, img: Image, env: Env, c: Config, c1: Config, k: nat, sh: Shape)
    requires Good(p) && Compiled(p, img) && c.frames != []
    requires AllStand(p, |c.stack|, c.frames) && Suspended(p, c.frames) && Stands(p, Current(c), k, |c.stack|)
    requires var items := ItemsOf(p, Current(c).fn);
             && Charted(items, env) && ResolveItem(items[k], items).Instr?
             && Has(img, c, ResolveItem(items[k], items).op, ResolveItem(items[k], items).arg, c1, sh)
    ensures AllStand(p, |c1.stack|, c1.frames) <==> (sh.Catches? ==> RaisesCleanly(p, c))
  {
    hide ItemsOf, Good, Compiled, NoteAt, Charted, AllStand, Pos, Addr, FrameAfter, ResolveItem, Rise, Moves, Raises, RaisesCleanly, Suspended;
    match sh
    case Continues(jumps) => ContinueStands(p, img, env, c, c1, k, jumps);
    case Calls(callee) => CallStands(p, img, env, c, c1, k, callee);
    case Leaves => LeaveStands(p, img, c, c1, k);
    case Catches(frames, kept) =>
      SameOp(ItemsOf(p, Current(c).fn), k);
      if frames == c.frames && kept == |frames| {
        CaughtHere(p, env, c, c1, k);
      } else {
        CaughtElsewhere(p, img, env, c, c1, k, frames, kept);
      }
  }

  /** A frame that has just caught an error has the height of its catch label, or does not
      have the height of any note. */
  lemma CatchStands(p: Program, f: Frame, k: nat, level: nat)
    requires Good(p) && HasCode(p, f.fn) && Where(ItemsOf(p, f.fn), f, k) && f.tries != []
    ensures var items := ItemsOf(p, f.fn);
            var n := NoteAt(items, START, k);
            n.Active() != [] && (StandsAt(p, CaughtIn(f), level) <==> level == Floor(f) + CatchHeight(items, n))
  {
    hide ItemsOf, Good, NoteAt, Charted, Pos, Addr, CatchHeight;
    var items := ItemsOf(p, f.fn);
    var env := CodeCharted(p, f.fn);
    var k1 := CatchPlace(items, env, f, k);
    CatchNote(items, env, NoteAt(items, START, k));
    if k2: nat :| Stands(p, CaughtIn(f), k2, level) {
      OnePlace(items, CaughtIn(f), k1, k2);
    }
    if level == Floor(f) + CatchHeight(items, NoteAt(items, START, k)) {
      assert Stands(p, CaughtIn(f), k1, level);
    }
  }

  /** The frames below the one that catches are not affected. */
  lemma CatcherDecides(p: Program, c: Config, c1: Config, frames: seq<Frame>, kept: nat)
    requires c.frames != [] && AllStand(p, |c.stack|, c.frames)
    requires 0 < kept <= |frames| && kept <= |c.frames| && frames[kept - 1].tries != []
    requires c1.frames == frames[..kept - 1] + [CaughtIn(frames[kept - 1])]
    requires forall i :: 0 <= i < kept - 1 ==> frames[i] == c.frames[i]
    requires frames[kept - 1].bp == c.frames[kept - 1].bp
    ensures AllStand(p, |c1.stack|, c1.frames) <==> StandsAt(p, CaughtIn(frames[kept - 1]), |c1.stack|)
  {
    hide Stands, StandsAt;
    assert Level(|c1.stack|, c1.frames, kept - 1) == |c1.stack| && c1.frames[kept - 1] == CaughtIn(frames[kept - 1]);
    forall i | 0 <= i < kept - 1
      ensures StandsAt(p, c1.frames[i], Level(|c1.stack|, c1.frames, i))
    {
      BelowStand(p, c, |c1.stack|, c1.frames, i);
    }
  }

  /** The frame that raises the error catches it. */
  lemma CaughtHere(p: Program, env: Env, c: Config, c1: Config, k: nat)
    requires Good(p) && c.frames != [] && AllStand(p, |c.stack|, c.frames) && Stands(p, Current(c), k, |c.stack|)
    requires Charted(ItemsOf(p, Current(c).fn), env) && Current(c).tries != []
    requires c1.frames == Under(c) + [CaughtIn(Current(c))]
    requires |c1.stack| == |c.stack| - Drops(ItemsOf(p, Current(c).fn)[k].op)
    ensures AllStand(p, |c1.stack|, c1.frames) <==> RaisesCleanly(p, c)
  {
    hide ItemsOf, Good, NoteAt, Charted, AllStand, Pos, Addr, CatchHeight, StandsAt, Drops;
    var f := Current(c);
    CatcherDecides(p, c, c1, c.frames, |c.frames|);
    CatchStands(p, f, k, |c1.stack|);
    if k1: nat :| LeavesNothing(p, f, k1) {
      OnePlace(ItemsOf(p, f.fn), f, k, k1);
    }
    if AllStand(p, |c1.stack|, c1.frames) {
      assert LeavesNothing(p, f, k);
    }
  }

  /** A frame below catches the error: the place of its callee's result is left over. */
  lemma CaughtBelow(p: Program, c: Config, c1: Config, kept: nat)
    requires Good(p) && AllStand(p, |c.stack|, c.frames) && Suspended(p, c.frames)
    requires 0 < kept < |c.frames| && c.frames[kept - 1].tries != [] && Current(c).tries == []
    requires c1.frames == c.frames[..kept - 1] + [CaughtIn(c.frames[kept - 1])] && |c1.stack| == c.frames[kept].bp + 1
    ensures !AllStand(p, |c1.stack|, c1.frames) && !RaisesCleanly(p, c)
  {
    hide ItemsOf, Good, NoteAt, Pos, Addr, CatchHeight, Calling, AllStand;
    var g := c.frames[kept - 1];
    CatcherDecides(p, c, c1, c.frames, kept);
    FrameStands(p, c, kept - 1);
    var k: nat :| Stands(p, g, k, |c1.stack|);
    CallingAbove(p, g, k);
    CatchStands(p, g, k, |c1.stack|);
  }

  lemma FrameStands(p: Program, c: Config, i: nat)
    requires AllStand(p, |c.stack|, c.frames) && i < |c.frames| - 1
    ensures StandsAt(p, c.frames[i], c.frames[i + 1].bp + 1)
  {
    hide StandsAt;
    assert StandsAt(p, c.frames[i], Level(|c.stack|, c.frames, i));
  }

  lemma CallIsUnclean(p: Program, env: Env, c: Config, k: nat)
    requires c.frames != [] && HasCode(p, Current(c).fn) && Where(ItemsOf(p, Current(c).fn), Current(c), k)
    requires Charted(ItemsOf(p, Current(c).fn), env) && ItemsOf(p, Current(c).fn)[k].op == CallFn
    ensures !RaisesCleanly(p, c)
  {
    hide ItemsOf, NoteAt, Charted, Pos, Addr, CatchHeight;
    var f, items := Current(c), ItemsOf(p, Current(c).fn);
    if k1: nat :| LeavesNothing(p, f, k1) {
      OnePlace(items, f, k, k1);
      AboveCatch(items, env, f, k);
      Fetched(items, env, f, k);
      CallTakes(items, items[k], NoteAt(items, START, k), env, ResolveItem(items[k], items).arg);
    }
  }

  /** A call fails before the callee's first instruction, and its own frame catches that:
      the callee's place is left over. */
  lemma CallFails(p: Program, env: Env, c: Config, c1: Config, k: nat, arg: nat)
    requires Good(p) && c.frames != [] && AllStand(p, |c.stack|, c.frames) && Stands(p, Current(c), k, |c.stack|)
    requires var items := ItemsOf(p, Current(c).fn);
             Charted(items, env) && Current(c).tries != [] && items[k].op == CallFn && ResolveItem(items[k], items) == Instr(CallFn, arg)
    requires c1.frames == Under(c) + [CaughtIn(Current(c))] && |c1.stack| == |c.stack| - arg
    ensures !AllStand(p, |c1.stack|, c1.frames) && !RaisesCleanly(p, c)
  {
    hide ItemsOf, Good, NoteAt, Charted, AllStand, Pos, Addr, CatchHeight, StandsAt;
    var f, items := Current(c), ItemsOf(p, Current(c).fn);
    CatcherDecides(p, c, c1, c.frames, |c.frames|);
    CatchStands(p, f, k, |c1.stack|);
    AboveCatch(items, env, f, k);
    Fetched(items, env, f, k);
    CallTakes(items, items[k], NoteAt(items, START, k), env, arg);
    CallIsUnclean(p, env, c, k);
  }

  lemma CallTakes(items: seq<Item>, it: Item, n: Note, env: Env, arg: nat)
    requires !it.Mark? && Notes.Fits(it, n, env) && it.op == CallFn && ResolveItem(it, items) == Instr(CallFn, arg)
    ensures Takes(it) == arg + 1
  {
    hide Settled;
  }

  lemma CaughtElsewhere(p: Program, img: Image, env: Env, c: Config, c1: Config, k: nat, frames: seq<Frame>, kept: nat)
    requires Good(p) && c.frames != [] && AllStand(p, |c.stack|, c.frames) && Suspended(p, c.frames)
    requires Stands(p, Current(c), k, |c.stack|) && (frames != c.frames || kept < |frames|)
    requires var items := ItemsOf(p, Current(c).fn);
             && Charted(items, env) && ResolveItem(items[k], items).Instr?
             && Has(img, c, ResolveItem(items[k], items).op, ResolveItem(items[k], items).arg, c1, Catches(frames, kept))
    ensures !AllStand(p, |c1.stack|, c1.frames) && !RaisesCleanly(p, c)
  {
    hide ItemsOf, Good, NoteAt, Charted, AllStand, Pos, Addr, Suspended, ResolveItem, RaisesCleanly, Raises, LeavesNothing;
    var items := ItemsOf(p, Current(c).fn);
    var r := ResolveItem(items[k], items);
    SameOp(items, k);
    assert frames[..kept - 1] == c.frames[..kept - 1];
    if kept < |c.frames| {
      assert frames[|c.frames| - 1].tries == Current(c).tries;
      CaughtBelow(p, c, c1, kept);
    } else {
      assert CaughtIn(frames[kept - 1]) == CaughtIn(Current(c));
      CallFails(p, env, c, c1, k, r.arg);
    }
  }

  lemma ContinueStands(p: Program, img: Image, env: Env, c: Config, c1: Config, k: nat, jumps: bool)
    requires Good(p) && c.frames != []
    requires AllStand(p, |c.stack|, c.frames) && Stands(p, Current(c), k, |c.stack|)
    requires var items := ItemsOf(p, Current(c).fn);
             && Charted(items, env) && ResolveItem(items[k], items).Instr?
             && Has(img, c, ResolveItem(items[k], items).op, ResolveItem(items[k], items).arg, c1, Continues(jumps))
    ensures AllStand(p, |c1.stack|, c1.frames)
  {
    hide ItemsOf, Good, NoteAt, Charted, Pos, Addr, Rise, Moves, ResolveItem, AllStand;
    var items := ItemsOf(p, Current(c).fn);
    Fetched(items, env, Current(c), k);
    RiseIsMoves(items, items[k], NoteAt(items, START, k), env);
    SameOp(items, k);
    var r := ResolveItem(items[k], items);
    var k1 := GoesOn(items, env, Current(c), k, jumps);
    var f1 := FrameAfter(Current(c), r.op, r.arg, jumps);
    assert Stands(p, f1, k1, |c1.stack|);
    LastStands(p, c, c1, f1, k1);
  }

  lemma LastStands(p: Program, c: Config, c1: Config, f1: Frame, k1: nat)
    requires c.frames != [] && AllStand(p, |c.stack|, c.frames)
    requires c1.frames == Under(c) + [f1] && f1.bp == Current(c).bp && Stands(p, f1, k1, |c1.stack|)
    ensures AllStand(p, |c1.stack|, c1.frames)
  {
    hide Stands;
    forall i | 0 <= i < |c1.frames|
      ensures StandsAt(p, c1.frames[i], Level(|c1.stack|, c1.frames, i))
    {
      if i < |c1.frames| - 1 {
        BelowStand(p, c, |c1.stack|, c1.frames, i);
      } else {
        assert Stands(p, c1.frames[i], k1, Level(|c1.stack|, c1.frames, i));
      }
    }
  }

  lemma CallStands(p: Program, img: Image, env: Env, c: Config, c1: Config, k: nat, callee: Frame)
    requires Good(p) && Compiled(p, img) && c.frames != []
    requires AllStand(p, |c.stack|, c.frames) && Stands(p, Current(c), k, |c.stack|)
    requires var items := ItemsOf(p, Current(c).fn);
             && Charted(items, env) && ResolveItem(items[k], items).Instr?
             && Has(img, c, ResolveItem(items[k], items).op, ResolveItem(items[k], items).arg, c1, Calls(callee))
    ensures AllStand(p, |c1.stack|, c1.frames)
  {
    hide ItemsOf, Good, NoteAt, Charted, Pos, Addr, Rise, Moves, ResolveItem, AllStand;
    var items := ItemsOf(p, Current(c).fn);
    Fetched(items, env, Current(c), k);
    SameOp(items, k);
    CallMoves(items, items[k], NoteAt(items, START, k), env);
    var f := Current(c).(ip := Current(c).ip + 1);
    var k1 := ReturnsTo(p, Current(c), k);
    assert Stands(p, f, k1, callee.bp + 1);
    CalleeHasCode(p, img, callee);
    var k2 := Begins(p, callee);
    assert Stands(p, callee, k2, |c1.stack|);
    PairStands(p, c, c1, f, callee, k1, k2);
  }

  lemma CalleeHasCode(p: Program, img: Image, callee: Frame)
    requires Compiled(p, img) && IsCallee(img, callee)
    ensures HasCode(p, callee.fn)
  {
  }

  lemma CallMoves(items: seq<Item>, it: Item, n: Note, env: Env)
    requires !it.Mark? && Notes.Fits(it, n, env) && it.op == CallFn && ResolveItem(it, items).Instr?
    ensures Moves(it) == 0 - ResolveItem(it, items).arg as int
  {
    hide Settled;
  }

  lemma PairStands(p: Program, c: Config, c1: Config, f: Frame, callee: Frame, k1: nat, k2: nat)
    requires c.frames != [] && AllStand(p, |c.stack|, c.frames)
    requires c1.frames == Under(c) + [f, callee] && f.bp == Current(c).bp
    requires Stands(p, f, k1, callee.bp + 1) && Stands(p, callee, k2, |c1.stack|)
    ensures AllStand(p, |c1.stack|, c1.frames)
  {
    hide Stands;
    forall i | 0 <= i < |c1.frames|
      ensures StandsAt(p, c1.frames[i], Level(|c1.stack|, c1.frames, i))
    {
      if i < |c1.frames| - 2 {
        BelowStand(p, c, |c1.stack|, c1.frames, i);
      } else if i == |c1.frames| - 2 {
        assert Stands(p, c1.frames[i], k1, Level(|c1.stack|, c1.frames, i));
      } else {
        assert Stands(p, c1.frames[i], k2, Level(|c1.stack|, c1.frames, i));
      }
    }
  }

  lemma LeaveStands(p: Program, img: Image, c: Config, c1: Config, k: nat)
    requires |c.frames| > 1 && AllStand(p, |c.stack|, c.frames)
    requires c1.frames == Under(c) && |c1.stack| == Current(c).bp + 1
    ensures AllStand(p, |c1.stack|, c1.frames)
  {
    hide Stands;
    forall i | 0 <= i < |c1.frames|
      ensures StandsAt(p, c1.frames[i], Level(|c1.stack|, c1.frames, i))
    {
      assert StandsAt(p, c.frames[i], Level(|c.stack|, c.frames, i));
    }
  }

  lemma {:induction false} RunStands(p: Program, img: Image, globals: map<Name, Value>, n: nat)
    requires Good(p) && Compiled(p, img) && CleanCatches(p, img, globals, n)
    ensures StandsFor(p, Run(img, Start(globals), n))
  {
    hide ItemsOf, Good, Compiled, Step, Where, NoteAt, RaisesNow, RaisesCleanly;
    if n == 0 {
      var f := Frame(None, 0, 0, 0, []);
      var k := Begins(p, f);
      assert Stands(p, f, k, 0) && StandsAt(p, f, Level(0, [f], 0));
    } else {
      RunStands(p, img, globals, n - 1);
      NextStandsIff(p, img, globals, n - 1);
    }
  }

  /** A run that is as the notes say goes on so if and only if the next error that is caught
      leaves nothing behind. */
  lemma NextStandsIff(p: Program, img: Image, globals: map<Name, Value>, n: nat)
    requires Good(p) && Compiled(p, img) && StandsFor(p, Run(img, Start(globals), n))
    ensures var s := Run(img, Start(globals), n);
            StandsFor(p, Run(img, Start(globals), n + 1)) <==> (Caught(img, s) ==> RaisesCleanly(p, s.c))
  {
    hide ItemsOf, Good, Compiled, Step, AllStand, RaisesNow, RaisesCleanly, Suspended;
    var s := Run(img, Start(globals), n);
    StepRuns(img, s);
    if s.Running? {
      RunSuspended(p, img, globals, n);
      StepStandsIff(p, img, s.c);
    }
  }

  /** The condition is exact: all frames have the heights that the compiler has in mind, in
      all states up to one, exactly when every error caught on the way there was raised in
      the frame of its `try` and on as many operands as that had, not counting those of the
      instruction that raised it. */
  lemma {:induction false} HeightsIff(p: Program, img: Image, globals: map<Name, Value>, n: nat)
    requires Good(p) && Compiled(p, img)
    ensures StandsThroughout(p, img, globals, n) <==> CleanCatches(p, img, globals, n)
  {
    hide Good, Compiled, Run, Step, StandsFor, RaisesNow, RaisesCleanly;
    if CleanCatches(p, img, globals, n) {
      forall m | 0 <= m <= n
        ensures StandsFor(p, Run(img, Start(globals), m))
      {
        RunStands(p, img, globals, m);
      }
    }
    if StandsThroughout(p, img, globals, n) {
      forall m | 0 <= m < n && Caught(img, Run(img, Start(globals), m))
        ensures RaisesCleanly(p, Run(img, Start(globals), m).c)
      {
        NextStandsIff(p, img, globals, m);
      }
    }
  }

  function NextOp(img: Image, c: Config): Opcode
    requires RaisesNow(img, c)
  {
    CodeOf(img, Current(c)).value.instrs[Current(c).ip].op
  }

  lemma StepLeaks(p: Program, img: Image, c: Config)
    requires Good(p) && Compiled(p, img) && AllStand(p, |c.stack|, c.frames) && Suspended(p, c.frames)
    requires Caught(img, Running(c)) && (|Step(img, Running(c)).c.frames| < |c.frames| || NextOp(img, c) == CallFn)
    ensures !RaisesCleanly(p, c)
  {
    hide ItemsOf, Good, Compiled, Step, NoteAt, Raises, Suspended, RaisesCleanly, Charted, ResolveItem, AllStand, Pos, Addr;
    var f, c1 := Current(c), Step(img, Running(c)).c;
    assert StandsAt(p, f, |c.stack|) by { TopStands(p, c); }
    var k: nat :| Stands(p, f, k, |c.stack|);
    var env := CodeCharted(p, f.fn);
    var sh := StepShape(p, img, env, c, k);
    FetchesItem(p, img, env, c, k);
    NextIsItem(p, img, env, c, k);
    var items := ItemsOf(p, f.fn);
    SameOp(items, k);
    if sh.frames != c.frames || sh.kept < |sh.frames| {
      CaughtElsewhere(p, img, env, c, c1, k, sh.frames, sh.kept);
    } else {
      CallIsUnclean(p, env, c, k);
    }
  }

  lemma TopStands(p: Program, c: Config)
    requires AllStand(p, |c.stack|, c.frames) && c.frames != []
    ensures StandsAt(p, Current(c), |c.stack|)
  {
    hide StandsAt;
    assert StandsAt(p, c.frames[|c.frames| - 1], Level(|c.stack|, c.frames, |c.frames| - 1));
  }

  lemma NextIsItem(p: Program, img: Image, env: Env, c: Config, k: nat)
    requires Compiled(p, img) && RaisesNow(img, c) && HasCode(p, Current(c).fn)
    requires Charted(ItemsOf(p, Current(c).fn), env) && Where(ItemsOf(p, Current(c).fn), Current(c), k)
    ensures var items := ItemsOf(p, Current(c).fn);
            var r := ResolveItem(items[k], items);
            r.Instr? && NextOp(img, c) == r.op
  {
    hide Charted, Compiled, Raises, Assemble, ItemsOf, Pos, NoteAt;
    FetchedCode(p, img, env, Current(c), k);
    Fetched(ItemsOf(p, Current(c).fn), env, Current(c), k);
  }

  /** An error that leaves its frame is never clean: the callee's place is left over.  The
      same is true of every error that a call raises, whichever frame catches it. */
  lemma CallErrorsLeak(p: Program, img: Image, globals: map<Name, Value>, n: nat)
    requires Good(p) && Compiled(p, img) && StandsThroughout(p, img, globals, n) && Caught(img, Run(img, Start(globals), n))
    requires var s := Run(img, Start(globals), n); |Step(img, s).c.frames| < |s.c.frames| || NextOp(img, s.c) == CallFn
    ensures !StandsFor(p, Run(img, Start(globals), n + 1)) && !CleanCatches(p, img, globals, n + 1)
  {
    hide Good, Compiled, Step, RaisesNow, RaisesCleanly, AllStand, Suspended, NextOp;
    RunSuspended(p, img, globals, n);
    StepLeaks(p, img, Run(img, Start(globals), n).c);
    NextStandsIff(p, img, globals, n);
  }

  /** Runs in which nothing is caught are clean. */
  lemma NothingCaughtIsClean(p: Program, img: Image, globals: map<Name, Value>, n: nat)
    requires forall m :: 0 <= m <= n && Run(img, Start(globals), m).Running? ==> Run(img, Start(globals), m).c.error.None?
    ensures CleanCatches(p, img, globals, n)
  {
    hide RaisesNow, RaisesCleanly, Step;
    forall m | 0 <= m < n
      ensures !Caught(img, Run(img, Start(globals), m))
    {
      var s := Run(img, Start(globals), m);
      assert Run(img, Start(globals), m + 1) == Step(img, s);
      if s.Running? && RaisesNow(img, s.c) {
        RaisedIsSet(img, s.c);
      }
    }
  }

  // ----- heights are within the straight-line sum -----

  lemma WordMoves(items: seq<Item>, it: Item)
    requires !it.Mark? && FitsWord(ResolveItem(it, items))
    requires it.Ref? ==> it.op in {Jump, JumpIfTrue, JumpIfFalse, PushTry}
    ensures WordEffect(Encode(ResolveItem(it, items))) >= Moves(it)
  {
    hide Addr;
    var i := ResolveItem(it, items);
    OpOfOpNum(i.op);
    match i
    case Instr(op, arg) => WordFields(OpNum(op), arg);
    case Instr2(op, a, b) => Word2Fields(OpNum(op), a, b);
  }

  /** Jumps count as one operand more each, so the sum only drifts upwards. */
  lemma {:induction false} BelowLine(items: seq<Item>, env: Env, locals: nat, k: nat)
    requires k <= |items| && AllFit(items) && Charted(items, env)
    ensures Pos(items, k) <= |Assemble(items)|
    ensures NoteAt(items, START, k).height <= LineHeight(EncodeAll(Assemble(items)), locals, Pos(items, k))
  {
    hide WordEffect, Encode, FitsWord, Moves, Assemble, Charted;
    if k > 0 {
      BelowLine(items, env, locals, k - 1);
      if !items[k - 1].Mark? {
        Fetch(items, k - 1);
        if items[k - 1].Ref? {
          JumpsOnly(items, env, k - 1);
        }
        WordMoves(items, items[k - 1]);
      } else {
        MarkMoves(items[k - 1]);
      }
    } else {
      assert LineHeight(EncodeAll(Assemble(items)), locals, 0) == locals;
    }
  }

  lemma JumpsOnly(items: seq<Item>, env: Env, k: nat)
    requires Charted(items, env) && k < |items| && items[k].Ref?
    ensures items[k].op in {Jump, JumpIfTrue, JumpIfFalse, PushTry}
  {
    hide NoteAt, Settled, MarkedOnce;
    assert Notes.Fits(items[k], NoteAt(items, START, k), env);
  }

  lemma MarkMoves(it: Item)
    requires it.Mark?
    ensures Moves(it) == 0
  {
  }

  /** The stack size recorded with a frame's code. */
  function StackSize(p: Program, fn: Option<nat>): int
    requires HasCode(p, fn)
  {
    match fn
    case None => CodeForModule(p.body).stackSize
    case Some(i) => CodeForFun(p.funs[i]).stackSize
  }

  lemma WithinSize(p: Program, f: Frame, k: nat)
    requires Good(p) && CodeFits(p) && HasCode(p, f.fn) && Where(ItemsOf(p, f.fn), f, k)
    ensures 0 <= NoteAt(ItemsOf(p, f.fn), START, k).height <= StackSize(p, f.fn)
  {
    hide GenModule, GenFun, BlockConsts, BlockTries, AfterBlock, AllFit, Assemble, EncodeAll, NoteAt, Good, Charted;
    var items := ItemsOf(p, f.fn);
    var locals: nat := match f.fn case None => 0 case Some(i) => AfterBlock(p.funs[i].body, Local(p.funs[i].params)).Size();
    var words := EncodeAll(Assemble(items));
    var env := CodeCharted(p, f.fn);
    Fetched(items, env, f, k);
    BelowLine(items, env, locals, k);
    WordsMany(items);
    var m := LineMax(words, locals, |words|);
  }

  lemma WordsMany(items: seq<Item>)
    ensures |EncodeAll(Assemble(items))| == |Assemble(items)|
  {
  }

  /** While errors are caught cleanly, no frame uses more operand slots than its code was
      given, although that number ignores all jumps. */
  lemma Bounded(p: Program, img: Image, globals: map<Name, Value>, n: nat, i: nat)
    requires Good(p) && Compiled(p, img) && CodeFits(p) && CleanCatches(p, img, globals, n)
    requires Run(img, Start(globals), n).Running? && i < |Run(img, Start(globals), n).c.frames|
    ensures var c := Run(img, Start(globals), n).c;
            HasCode(p, c.frames[i].fn)
            && Floor(c.frames[i]) <= Level(|c.stack|, c.frames, i) <= Floor(c.frames[i]) + StackSize(p, c.frames[i].fn)
  {
    hide ItemsOf, Good, Compiled, Run, Where, StackSize, CodeFits, CleanCatches;
    RunStands(p, img, globals, n);
    var c := Run(img, Start(globals), n).c;
    assert StandsAt(p, c.frames[i], Level(|c.stack|, c.frames, i));
    var k :| Stands(p, c.frames[i], k, Level(|c.stack|, c.frames, i));
    WithinSize(p, c.frames[i], k);
  }

  // ----- caught errors -----

  /** `while (true) { try { 1 + null(); } catch { } }` */
  const LEAKY_BODY: List<Stmt> := Cons(ExprStmt(Binary(Add, Const(IntLit(1)), Call(Const(NullLit), Nil))), Nil)
  const LEAKY_TRY: Stmt := Try(LEAKY_BODY, None, Nil)
  const LEAKY_LOOP: Stmt := While(Const(TrueLit), Cons(LEAKY_TRY, Nil))
  const LEAKY: Program := Program(Cons(LEAKY_LOOP, Nil), [], [])

  const LEAKY_CODE: seq<Instr> :=
    [Instr(ConstTrue, 0), Instr(JumpIfFalse, 13), Instr(PushTry, 10), Instr(LoadConst, 0), Instr(ConstNull, 0),
     Instr(CallFn, 0), Instr(Bin(Add), 0), Instr(Pop, 0), Instr(PopTry, 0), Instr(Jump, 12),
     Instr(Catch, 0), Instr(Pop, 0), Instr(Jump, 0), Instr(Halt, 0)]

  const LEAKY_ITEMS: seq<Item> :=
    [Mark(0), Op(ConstTrue, 0), Ref(JumpIfFalse, 1), Ref(PushTry, 2), Op(LoadConst, 0), Op(ConstNull, 0),
     Op(CallFn, 0), Op(Bin(Add), 0), Op(Pop, 0), Op(PopTry, 0), Ref(Jump, 3),
     Mark(2), Op(Catch, 0), Op(Pop, 0), Mark(3), Ref(Jump, 0), Mark(1), Op(Halt, 0)]

  const LEAKY_TARGETS: Option<Loop> := Some(Loop(1, 0, 0))
  const LEAKY_SUM: seq<Item> := [Op(LoadConst, 0), Op(ConstNull, 0), Op(CallFn, 0), Op(Bin(Add), 0), Op(Pop, 0)]

  lemma LeakyBodyItems()
    ensures GenBlock(LEAKY_BODY, Global, Deeper(LEAKY_TARGETS), 4, 0) == LEAKY_SUM
    ensures BlockLabels(LEAKY_BODY) == 0
  {
  }

  lemma LeakyTryItems()
    ensures GenStmt(LEAKY_TRY, Global, LEAKY_TARGETS, 2, 0) == TryCode(LEAKY_SUM, [Op(Pop, 0)], [], 2)
  {
    hide TryCode;
    LeakyBodyItems();
  }

  lemma LeakyItems()
    ensures GenModule(LEAKY.body) == LEAKY_ITEMS
  {
    hide TryCode;
    var g := GenStmt(LEAKY_TRY, Global, LEAKY_TARGETS, 2, 0);
    assert GenModule(LEAKY.body) == WhileCode([Op(ConstTrue, 0)], g, 0) + [Op(Halt, 0)] by { hide WhileCode; }
    LeakyTryItems();
    LeakyTryCode();
  }

  lemma LeakyTryCode()
    ensures WhileCode([Op(ConstTrue, 0)], TryCode(LEAKY_SUM, [Op(Pop, 0)], [], 2), 0) + [Op(Halt, 0)] == LEAKY_ITEMS
  {
  }

  /** The address of each item. */
  function LeakyPos(i: nat): int {
    i - (if i > 16 then 4 else if i > 14 then 3 else if i > 11 then 2 else if i > 0 then 1 else 0)
  }

  lemma {:induction false} LeakyPosIs(i: nat)
    requires i <= 18
    ensures Pos(LEAKY_ITEMS, i) == LeakyPos(i)
  {
    if i > 0 {
      LeakyPosIs(i - 1);
      assert LEAKY_ITEMS[i - 1].Mark? <==> i - 1 in {0, 11, 14, 16};
    }
  }

  lemma LeakyLabels()
    ensures Addr(LEAKY_ITEMS, 0) == 0 && Addr(LEAKY_ITEMS, 1) == 13 && Addr(LEAKY_ITEMS, 2) == 10 && Addr(LEAKY_ITEMS, 3) == 12
  {
    hide Pos, Addr;
    LeakyItems();
    ModuleMarkedOnce(LEAKY.body);
    AddrOfMark(LEAKY_ITEMS, 0);
    AddrOfMark(LEAKY_ITEMS, 16);
    AddrOfMark(LEAKY_ITEMS, 11);
    AddrOfMark(LEAKY_ITEMS, 14);
    LeakyPosIs(0);
    LeakyPosIs(16);
    LeakyPosIs(11);
    LeakyPosIs(14);
  }

  lemma LeakyFetch(i: nat)
    requires i < 18 && !LEAKY_ITEMS[i].Mark?
    ensures 0 <= LeakyPos(i) < |Assemble(LEAKY_ITEMS)| && Assemble(LEAKY_ITEMS)[LeakyPos(i)] == LEAKY_CODE[LeakyPos(i)]
  {
    hide Pos, Addr, EmitUpTo;
    Fetch(LEAKY_ITEMS, i);
    LeakyPosIs(i);
    LeakyLabels();
  }

  lemma LeakyAssembled()
    ensures Assemble(GenModule(LEAKY.body)) == LEAKY_CODE
  {
    hide Pos, Addr, EmitUpTo, GenModule;
    LeakyItems();
    LeakyPosIs(18);
    var code := Assemble(LEAKY_ITEMS);
    assert |code| == 14;
    forall a | 0 <= a < 14
      ensures code[a] == LEAKY_CODE[a]
    {
      if a < 10 {
        LeakyFetch(a + 1);
      } else {
        LeakyFetch(if a < 12 then a + 2 else if a == 12 then 15 else 17);
      }
    }
  }

  ghost predicate LeakyImage(img: Image) {
    img.main.instrs == LEAKY_CODE && img.main.consts == [IntConst(1)]
  }

  /** The module frame at an address, inside the `try` or not. */
  function LeakyState(stack: seq<Value>, globals: map<Name, Value>, ip: nat, inTry: bool, error: Option<Value>): State {
    Running(Config(stack, globals, 0, [Frame(None, ip, 0, 0, if inTry then [10] else [])], error))
  }

  lemma LeakyExecutes(img: Image, s: State, stack: seq<Value>, globals: map<Name, Value>, ip: nat, inTry: bool, error: Option<Value>)
    requires LeakyImage(img) && ip < 14 && s == LeakyState(stack, globals, ip, inTry, error)
    ensures Step(img, s) == Execute(img, s.c, img.main, LEAKY_CODE[ip].op, LEAKY_CODE[ip].arg)
  {
    hide Execute;
  }

  lemma LeakyPush(img: Image, stack: seq<Value>, globals: map<Name, Value>, ip: nat, inTry: bool, v: Value)
    requires LeakyImage(img) && (ip, v) in {(0, BoolV(true)), (3, IntV(1)), (4, NullV)}
    ensures Step(img, LeakyState(stack, globals, ip, inTry, None)) == LeakyState(stack + [v], globals, ip + 1, inTry, None)
  {
    hide Step;
    LeakyExecutes(img, LeakyState(stack, globals, ip, inTry, None), stack, globals, ip, inTry, None);
  }

  lemma LeakyTest(img: Image, stack: seq<Value>, globals: map<Name, Value>)
    requires LeakyImage(img)
    ensures Step(img, LeakyState(stack + [BoolV(true)], globals, 1, false, None)) == LeakyState(stack, globals, 2, false, None)
  {
    hide Step;
    LeakyExecutes(img, LeakyState(stack + [BoolV(true)], globals, 1, false, None), stack + [BoolV(true)], globals, 1, false, None);
  }

  lemma LeakyTry(img: Image, stack: seq<Value>, globals: map<Name, Value>)
    requires LeakyImage(img)
    ensures Step(img, LeakyState(stack, globals, 2, false, None)) == LeakyState(stack, globals, 3, true, None)
  {
    hide Step;
    LeakyExecutes(img, LeakyState(stack, globals, 2, false, None), stack, globals, 2, false, None);
    var none: seq<nat>, f := [], Frame(None, 2, 0, 0, []);
    assert none + [10] == [10];
    assert [f][0 := f.(tries := none + [10])] == [Frame(None, 2, 0, 0, [10])];
  }

  lemma NullCall(img: Image, c: Config)
    requires c.frames != [] && c.stack != [] && c.stack[|c.stack| - 1] == NullV
    ensures Execute(img, c, img.main, CallFn, 0) == Raised(c, NotCallable(NullV))
  {
    hide Unwind;
  }

  lemma LeakyRaised(c: Config, err: Value)
    requires c.frames == [Frame(None, 5, 0, 0, [10])] && c.allocs == 0
    ensures Raised(c, err) == LeakyState(c.stack, c.globals, 10, true, Some(err))
  {
    var none: seq<Frame> := [];
    assert c.frames[..0] == none;
  }

  lemma LeakyCall(img: Image, stack: seq<Value>, globals: map<Name, Value>)
    requires LeakyImage(img)
    ensures Step(img, LeakyState(stack + [NullV], globals, 5, true, None))
         == LeakyState(stack + [NullV], globals, 10, true, Some(NotCallable(NullV)))
  {
    hide Step, Execute, Raised;
    var s := LeakyState(stack + [NullV], globals, 5, true, None);
    LeakyExecutes(img, s, stack + [NullV], globals, 5, true, None);
    NullCall(img, s.c);
    LeakyRaised(s.c, NotCallable(NullV));
  }

  lemma LeakyCatch(img: Image, stack: seq<Value>, globals: map<Name, Value>, err: Value)
    requires LeakyImage(img)
    ensures Step(img, LeakyState(stack, globals, 10, true, Some(err))) == LeakyState(stack + [err], globals, 11, false, None)
  {
    hide Step;
    LeakyExecutes(img, LeakyState(stack, globals, 10, true, Some(err)), stack, globals, 10, true, Some(err));
  }

  lemma LeakyBack(img: Image, stack: seq<Value>, globals: map<Name, Value>, err: Value)
    requires LeakyImage(img)
    ensures Step(img, LeakyState(stack + [err], globals, 11, false, None)) == LeakyState(stack, globals, 12, false, None)
    ensures Step(img, LeakyState(stack, globals, 12, false, None)) == LeakyState(stack, globals, 0, false, None)
  {
    hide Step;
    LeakyExecutes(img, LeakyState(stack + [err], globals, 11, false, None), stack + [err], globals, 11, false, None);
    LeakyExecutes(img, LeakyState(stack, globals, 12, false, None), stack, globals, 12, false, None);
  }

  function Leftovers(m: nat): (s: seq<Value>)
    ensures |s| == 2 * m
  {
    if m == 0 then [] else Leftovers(m - 1) + [IntV(1), NullV]
  }

  lemma {:induction false} LeakyRun(img: Image, globals: map<Name, Value>, m: nat)
    requires LeakyImage(img)
    ensures Run(img, Start(globals), 9 * m) == LeakyState(Leftovers(m), globals, 0, false, None)
  {
    hide Step, LeakyState;
    if m > 0 {
      LeakyRun(img, globals, m - 1);
      var stack, b, s := Leftovers(m - 1), 9 * (m - 1), Start(globals);
      var one, left, err := stack + [IntV(1)], Leftovers(m), NotCallable(NullV);
      assert one + [NullV] == left;
      LeakyPush(img, stack, globals, 0, false, BoolV(true));
      assert Run(img, s, b + 1) == LeakyState(stack + [BoolV(true)], globals, 1, false, None);
      LeakyTest(img, stack, globals);
      assert Run(img, s, b + 2) == LeakyState(stack, globals, 2, false, None);
      LeakyTry(img, stack, globals);
      assert Run(img, s, b + 3) == LeakyState(stack, globals, 3, true, None);
      LeakyPush(img, stack, globals, 3, true, IntV(1));
      assert Run(img, s, b + 4) == LeakyState(one, globals, 4, true, None);
      LeakyPush(img, one, globals, 4, true, NullV);
      assert Run(img, s, b + 5) == LeakyState(left, globals, 5, true, None);
      LeakyCall(img, one, globals);
      assert Run(img, s, b + 6) == LeakyState(left, globals, 10, true, Some(err));
      LeakyCatch(img, left, globals, err);
      assert Run(img, s, b + 7) == LeakyState(left + [err], globals, 11, false, None);
      LeakyBack(img, left, globals, err);
      assert Run(img, s, b + 8) == LeakyState(left, globals, 12, false, None);
      assert Run(img, s, b + 9) == LeakyState(left, globals, 0, false, None);
    } else {
      assert Start(globals) == LeakyState([], globals, 0, false, None) by { LeakyStart(globals); }
    }
  }

  lemma LeakyStart(globals: map<Name, Value>)
    ensures Start(globals) == LeakyState([], globals, 0, false, None)
  {
  }

  /** Errors that are caught leave their operands on the stack: this program passes every
      bound, although its code was given two slots. */
  lemma CaughtErrorsLeak(img: Image, globals: map<Name, Value>, bound: nat) returns (n: nat)
    requires Compiled(LEAKY, img)
    ensures Good(LEAKY) && StackSize(LEAKY, None) == 2
    ensures Run(img, Start(globals), n).Running? && |Run(img, Start(globals), n).c.stack| > bound
  {
    hide Run, GenModule, EmitUpTo, StackSize, Good;
    LeakyGood();
    LeakySize();
    LeakyCompiled(img);
    n := 9 * (bound + 1);
    LeakyRun(img, globals, bound + 1);
  }

  lemma LeakyCompiled(img: Image)
    requires Compiled(LEAKY, img)
    ensures LeakyImage(img)
  {
    hide GenModule, EmitUpTo;
    LeakyAssembled();
  }

  lemma LeakyGood()
    ensures Good(LEAKY)
  {
    assert BlockWellPlaced(LEAKY_BODY, false, true) && BlockLinked(LEAKY_BODY, []);
    assert WellPlaced(LEAKY_TRY, false, true) && Linked(LEAKY_TRY, []);
    assert WellPlaced(LEAKY_LOOP, false, false) && Linked(LEAKY_LOOP, []);
  }

  function LeakyHeight(i: nat): int {
    if i in {5, 6, 11, 13, 14} then 2 else if i in {1, 4, 7, 10, 12} then 1 else 0
  }

  lemma {:induction false} LeakyLine(i: nat)
    requires i <= 14
    ensures LineHeight(EncodeAll(LEAKY_CODE), 0, i) == LeakyHeight(i)
    ensures LineMax(EncodeAll(LEAKY_CODE), 0, i) == if i >= 5 then 2 else if i >= 1 then 1 else 0
  {
    hide WordEffect, Encode;
    if i > 0 {
      LeakyLine(i - 1);
      LeakyEffect(i - 1);
    }
  }

  lemma LeakyEffect(i: nat)
    requires i < 14
    ensures WordEffect(Encode(LEAKY_CODE[i])) == LeakyHeight(i + 1) - LeakyHeight(i)
  {
    var x := LEAKY_CODE[i];
    OpOfOpNum(x.op);
    WordFields(OpNum(x.op), x.arg);
  }

  lemma LeakySize()
    ensures StackSize(LEAKY, None) == 2
  {
    hide GenModule, EmitUpTo, LineMax, LineHeight, Encode;
    LeakyAssembled();
    LeakyLine(14);
  }
}
