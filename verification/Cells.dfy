/** Captured variables behave as if every variable had a cell of its own, which closures
    share and which outlives its frame: as long as the search for an open upvalue does not
    stop early, which ascending captures make sure of. */
module Cells {
  import opened Syntax
  import opened Values
  import opened Upvalues

  // ----- the reference: variables in cells -----

  datatype IdealFrame = IdealFrame(cells: seq<nat>, operands: seq<Value>)

  datatype Ideal = Ideal(cells: seq<Value>, frames: seq<IdealFrame>, handles: seq<nat>)

  function Running(id: Ideal): IdealFrame
    requires id.frames != []
  {
    id.frames[|id.frames| - 1]
  }

  ghost predicate Sound(id: Ideal) {
    && id.frames != []
    && (forall f, s :: 0 <= f < |id.frames| && 0 <= s < |id.frames[f].cells| ==> id.frames[f].cells[s] < |id.cells|)
    && (forall k :: 0 <= k < |id.handles| ==> id.handles[k] < |id.cells|)
  }

  ghost predicate IdealAllowed(id: Ideal, a: Action)
    requires id.frames != []
  {
    var slots, operands := |Running(id).cells|, |Running(id).operands|;
    match a
    case Push(_) => true
    case Drop => operands > 0
    case Enter(args, _) => operands > args
    case GetLocal(slot) => slot < slots
    case SetLocal(slot) => slot < slots && operands > 0
    case Capture(slot) => slot < slots
    case GetUp(handle) => handle < |id.handles|
    case SetUp(handle) => handle < |id.handles| && operands > 0
    case Leave => |id.frames| > 1 && operands > 0
  }

  function WithOperands(id: Ideal, operands: seq<Value>): Ideal
    requires id.frames != []
  {
    id.(frames := id.frames[|id.frames| - 1 := Running(id).(operands := operands)])
  }

  function IdealEntered(id: Ideal, args: nat, locals: nat): Ideal
    requires id.frames != [] && |Running(id).operands| > args
  {
    var t := Running(id).operands;
    var id1 := WithOperands(id, t[..|t| - args - 1]);
    Ideal(id.cells + t[|t| - args..] + seq(locals, _ => NullV),
          id1.frames + [IdealFrame(seq(args + locals, i requires 0 <= i < args + locals => |id.cells| + i), [])],
          id.handles)
  }

  function IdealLeft(id: Ideal): Ideal
    requires |id.frames| > 1 && Running(id).operands != []
  {
    var t := Running(id).operands;
    var id1 := id.(frames := id.frames[..|id.frames| - 1]);
    WithOperands(id1, Running(id1).operands + [t[|t| - 1]])
  }

  function IdealStep(id: Ideal, a: Action): Ideal
    requires Sound(id) && IdealAllowed(id, a)
  {
    var fr := Running(id);
    var t := fr.operands;
    match a
    case Push(v) => WithOperands(id, t + [v])
    case Drop => WithOperands(id, t[..|t| - 1])
    case Enter(args, locals) => IdealEntered(id, args, locals)
    case GetLocal(slot) => WithOperands(id, t + [id.cells[fr.cells[slot]]])
    case SetLocal(slot) => id.(cells := id.cells[fr.cells[slot] := t[|t| - 1]])
    case Capture(slot) => id.(handles := id.handles + [fr.cells[slot]])
    case GetUp(handle) => WithOperands(id, t + [id.cells[id.handles[handle]]])
    case SetUp(handle) => id.(cells := id.cells[id.handles[handle] := t[|t| - 1]])
    case Leave => IdealLeft(id)
  }

  // ----- captures that share -----

  /** No two open upvalues point to one variable. */
  ghost predicate OneEach(st: State)
    requires Listed(st)
  {
    forall i, j :: 0 <= i < j < |st.open| ==> IdxOf(st, st.open[i]) != IdxOf(st, st.open[j])
  }

  ghost predicate IsOpenAt(st: State, idx: nat)
    requires Listed(st)
  {
    exists i :: 0 <= i < |st.open| && IdxOf(st, st.open[i]) == idx
  }

  /** The capture of a variable that has an open upvalue finds it. */
  ghost predicate Finds(st: State, a: Action)
    requires Formed(st)
  {
    a.Capture? && IsOpenAt(st, Last(st).base + a.slot) ==> Find(st.memory, st.open, Last(st).base + a.slot).Some?
  }

  /** The search over the indices `xs` of the open upvalues succeeds exactly when the index
      is there and no smaller one behind it. */
  lemma {:induction false} FindIff(memory: seq<Up>, open: seq<nat>, xs: seq<nat>, idx: nat)
    requires AllOpen(memory, open) && |xs| == |open| && forall i :: 0 <= i < |xs| ==> memory[open[i]].idx == xs[i]
    ensures Find(memory, open, idx).Some? <==> exists i :: 0 <= i < |xs| && LastAt(xs, i, idx)
  {
    if open != [] {
      var n := |open| - 1;
      if xs[n] > idx {
        FindIff(memory, open[..n], xs[..n], idx);
        forall i | 0 <= i < n
          ensures LastAt(xs[..n], i, idx) <==> LastAt(xs, i, idx)
        {
        }
      } else if xs[n] == idx {
        assert LastAt(xs, n, idx);
      }
    }
  }

  /** The number stands at a place, and nothing smaller behind it. */
  ghost predicate LastAt(xs: seq<nat>, i: nat, x: nat) {
    i < |xs| && xs[i] == x && forall j :: i < j < |xs| ==> xs[j] >= x
  }

  // ----- how the two correspond -----

  /** `owner` gives the cell of every upvalue object, `at` the cell of every variable that
      is on the stack. */
  datatype Link = Link(owner: seq<nat>, at: map<nat, nat>)

  ghost predicate FramesAgree(st: State, id: Ideal, at: map<nat, nat>) {
    && Laid(st) && |id.frames| == |st.frames|
    && forall f :: 0 <= f < |st.frames| ==> FrameAgrees(st.stack, st.frames[f], EndOf(st, f), id.frames[f], at)
  }

  /** The variables are in their cells, and the operands lie between them and `end`. */
  ghost predicate FrameAgrees(stack: seq<Value>, fr: Frame, end: int, cellFrame: IdealFrame, at: map<nat, nat>) {
    var start := fr.base + fr.slots;
    && |cellFrame.cells| == fr.slots
    && (forall i :: fr.base <= i < start ==> i in at && at[i] == cellFrame.cells[i - fr.base])
    && start <= end <= |stack| && stack[start..end] == cellFrame.operands
  }

  ghost predicate CellsAgree(st: State, id: Ideal, at: map<nat, nat>) {
    && (forall i :: i in at ==> i < |st.stack| && at[i] < |id.cells| && st.stack[i] == id.cells[at[i]])
    && (forall i :: i in at ==> exists f :: 0 <= f < |st.frames| && IsSlot(st, f, i))
    && (forall i, j :: i in at && j in at && at[i] == at[j] ==> i == j)
  }

  ghost predicate UpAgrees(up: Up, c: nat, id: Ideal, at: map<nat, nat>) {
    c < |id.cells| &&
    match up
    case Open(idx) => idx in at && at[idx] == c
    case Closed(v) => v == id.cells[c] && c !in at.Values
  }

  ghost predicate UpsAgree(st: State, id: Ideal, l: Link) {
    && |l.owner| == |st.memory| && |id.handles| == |st.handles|
    && (forall u :: 0 <= u < |st.memory| ==> UpAgrees(st.memory[u], l.owner[u], id, l.at))
    && (forall u, w :: 0 <= u < |l.owner| && 0 <= w < |l.owner| && l.owner[u] == l.owner[w] ==> u == w)
    && (forall k :: 0 <= k < |st.handles| ==> st.handles[k] < |st.memory| && l.owner[st.handles[k]] == id.handles[k])
  }

  ghost predicate Agrees(st: State, id: Ideal, l: Link) {
    && Formed(st) && Grouped(st) && OneEach(st)
    && FramesAgree(st, id, l.at) && CellsAgree(st, id, l.at) && UpsAgree(st, id, l)
  }

  lemma AgreesIsSound(st: State, id: Ideal, l: Link)
    requires Agrees(st, id, l)
    ensures Sound(id) && |Running(id).operands| == Operands(st) && |Running(id).cells| == Last(st).slots
    ensures forall a :: Allowed(st, a) ==> IdealAllowed(id, a)
  {
    hide Formed, OneEach, Listed, Laid, Pointing, FramesAgree, CellsAgree, UpsAgree;
    LaidIs(st, id, l.at);
    CellsExist(st, id, l.at);
    HandlesExist(st, id, l);
  }

  lemma CellsExist(st: State, id: Ideal, at: map<nat, nat>)
    requires FramesAgree(st, id, at) && CellsAgree(st, id, at)
    ensures st.frames != [] && |id.frames| == |st.frames|
    ensures |Running(id).operands| == Operands(st) && |Running(id).cells| == Last(st).slots
    ensures forall f, s :: 0 <= f < |id.frames| && 0 <= s < |id.frames[f].cells| ==> id.frames[f].cells[s] < |id.cells|
  {
    assert FrameAgrees(st.stack, Last(st), |st.stack|, Running(id), at);
    forall f, s | 0 <= f < |id.frames| && 0 <= s < |id.frames[f].cells|
      ensures id.frames[f].cells[s] < |id.cells|
    {
      assert FrameAgrees(st.stack, st.frames[f], EndOf(st, f), id.frames[f], at);
      assert st.frames[f].base + s in at;
    }
  }

  lemma HandlesExist(st: State, id: Ideal, l: Link)
    requires UpsAgree(st, id, l)
    ensures |id.handles| == |st.handles|
    ensures forall k :: 0 <= k < |id.handles| ==> id.handles[k] < |id.cells|
  {
    forall k | 0 <= k < |id.handles|
      ensures id.handles[k] < |id.cells|
    {
      assert UpAgrees(st.memory[st.handles[k]], l.owner[st.handles[k]], id, l.at);
    }
  }

  /** A closure reads the cell. */
  lemma LoadIsCell(st: State, id: Ideal, l: Link, u: nat)
    requires Agrees(st, id, l) && u < |st.memory|
    ensures l.owner[u] < |id.cells| && Load(st, u) == id.cells[l.owner[u]]
  {
    assert UpAgrees(st.memory[u], l.owner[u], id, l.at);
  }

  // ----- operands come and go -----

  /** The stack above the variables of the running frame is replaced. */
  lemma OperandsAgree(st: State, id: Ideal, l: Link, operands: seq<Value>)
    requires Agrees(st, id, l)
    ensures var st1 := st.(stack := st.stack[..Last(st).base + Last(st).slots] + operands);
            Agrees(st1, WithOperands(id, operands), l)
  {
    hide CellsAgree, UpsAgree, Formed, OneEach, FrameAgrees;
    FormedIs(st);
    var st1 := st.(stack := st.stack[..Last(st).base + Last(st).slots] + operands);
    OperandsFrames(st, id, l.at, operands);
    OperandsCells(st, id, l.at, operands);
    StackOnly(st, st1);
    SameCells(st, st1, id, WithOperands(id, operands), l);
  }

  lemma OperandsFrames(st: State, id: Ideal, at: map<nat, nat>, operands: seq<Value>)
    requires FramesAgree(st, id, at)
    ensures var st1 := st.(stack := st.stack[..Last(st).base + Last(st).slots] + operands);
            FramesAgree(st1, WithOperands(id, operands), at)
  {
    hide FrameAgrees;
    var st1 := st.(stack := st.stack[..Last(st).base + Last(st).slots] + operands);
    var id1 := WithOperands(id, operands);
    forall f | 0 <= f < |st1.frames|
      ensures FrameAgrees(st1.stack, st1.frames[f], EndOf(st1, f), id1.frames[f], at)
    {
      if f < |st.frames| - 1 {
        BelowRunning(st, f);
        FrameMoves(st.stack, st1.stack, st.frames[f], EndOf(st, f), id.frames[f], at);
      } else {
        NewOperands(st.stack, Last(st), |st.stack|, Running(id), at, operands);
      }
    }
  }

  /** Only the stack up to its end matters for a frame. */
  lemma FrameMoves(stack: seq<Value>, stack1: seq<Value>, fr: Frame, end: int, cellFrame: IdealFrame, at: map<nat, nat>)
    requires FrameAgrees(stack, fr, end, cellFrame, at) && end <= |stack1|
    requires forall i :: fr.base + fr.slots <= i < end ==> stack1[i] == stack[i]
    ensures FrameAgrees(stack1, fr, end, cellFrame, at)
  {
    assert stack1[fr.base + fr.slots..end] == stack[fr.base + fr.slots..end];
  }

  lemma NewOperands(stack: seq<Value>, fr: Frame, end: int, cellFrame: IdealFrame, at: map<nat, nat>, operands: seq<Value>)
    requires FrameAgrees(stack, fr, end, cellFrame, at)
    ensures var stack1 := stack[..fr.base + fr.slots] + operands;
            FrameAgrees(stack1, fr, |stack1|, cellFrame.(operands := operands), at)
  {
  }

  lemma OperandsCells(st: State, id: Ideal, at: map<nat, nat>, operands: seq<Value>)
    requires Laid(st) && id.frames != [] && CellsAgree(st, id, at)
    ensures CellsAgree(st.(stack := st.stack[..Last(st).base + Last(st).slots] + operands), WithOperands(id, operands), at)
  {
    var st1 := st.(stack := st.stack[..Last(st).base + Last(st).slots] + operands);
    forall i | i in at
      ensures i < Last(st).base + Last(st).slots && exists f :: 0 <= f < |st1.frames| && IsSlot(st1, f, i)
    {
      var f :| 0 <= f < |st.frames| && IsSlot(st, f, i);
      BelowRunning(st, f);
      assert IsSlot(st1, f, i);
    }
  }

  lemma BelowRunning(st: State, f: nat)
    requires Laid(st) && f < |st.frames|
    ensures st.frames[f].base + st.frames[f].slots <= Last(st).base + Last(st).slots
    ensures f < |st.frames| - 1 ==> st.frames[f].base + st.frames[f].slots <= EndOf(st, f) < Last(st).base
  {
    if f < |st.frames| - 1 {
      assert st.frames[f].base + st.frames[f].slots < st.frames[f + 1].base;
      assert f + 1 < |st.frames| - 1 ==> st.frames[f + 1].base + st.frames[f + 1].slots < st.frames[|st.frames| - 1].base;
    }
  }

  /** Nothing but the stack has changed. */
  lemma StackOnly(st: State, st1: State)
    requires Formed(st) && Grouped(st) && OneEach(st) && st1 == st.(stack := st1.stack) && Last(st).base + Last(st).slots <= |st1.stack|
    ensures Formed(st1) && Grouped(st1) && OneEach(st1)
  {
    assert forall f, idx :: 0 <= f < |st.frames| ==> IsSlot(st1, f, idx) == IsSlot(st, f, idx);
    forall u | 0 <= u < |st1.memory| && st1.memory[u].Open?
      ensures exists f :: 0 <= f < |st1.frames| && IsSlot(st1, f, st1.memory[u].idx)
    {
      var f :| 0 <= f < |st.frames| && IsSlot(st, f, st.memory[u].idx);
      assert IsSlot(st1, f, st1.memory[u].idx);
    }
  }

  lemma SameCells(st: State, st1: State, id: Ideal, id1: Ideal, l: Link)
    requires UpsAgree(st, id, l) && st1.memory == st.memory && st1.handles == st.handles
    requires id1.cells == id.cells && id1.handles == id.handles
    ensures UpsAgree(st1, id1, l)
  {
    forall u | 0 <= u < |st.memory|
      ensures UpAgrees(st1.memory[u], l.owner[u], id1, l.at)
    {
      assert UpAgrees(st.memory[u], l.owner[u], id, l.at);
    }
  }

  // ----- writing a variable -----

  lemma WriteSlot(st: State, id: Ideal, l: Link, i: nat, v: Value)
    requires Agrees(st, id, l) && i in l.at
    ensures i < |st.stack| && l.at[i] < |id.cells|
    ensures Agrees(st.(stack := st.stack[i := v]), id.(cells := id.cells[l.at[i] := v]), l)
  {
    hide FramesAgree, CellsAgree, UpsAgree, Formed, OneEach;
    FormedIs(st);
    CellIs(st, id, l.at, i);
    WriteFrames(st, id, l.at, i, v);
    WriteCells(st, id, l.at, i, v);
    StackOnly(st, st.(stack := st.stack[i := v]));
    WriteUps(st, id, l, i, v);
  }

  lemma CellIs(st: State, id: Ideal, at: map<nat, nat>, i: nat)
    requires CellsAgree(st, id, at) && i in at
    ensures i < |st.stack| && at[i] < |id.cells|
  {
  }

  lemma WriteFrames(st: State, id: Ideal, at: map<nat, nat>, i: nat, v: Value)
    requires FramesAgree(st, id, at) && CellsAgree(st, id, at) && i in at
    ensures FramesAgree(st.(stack := st.stack[i := v]), id.(cells := id.cells[at[i] := v]), at)
  {
    hide FrameAgrees, Laid, CellsAgree;
    var g := VariableFrame(st, id, at, i);
    var st1 := st.(stack := st.stack[i := v]);
    LaidWith(st, st1);
    forall f | 0 <= f < |st1.frames|
      ensures FrameAgrees(st1.stack, st1.frames[f], EndOf(st1, f), id.frames[f], at)
    {
      WriteFrame(st, id.frames[f], at, i, v, f, g);
    }
  }

  lemma VariableFrame(st: State, id: Ideal, at: map<nat, nat>, i: nat) returns (g: nat)
    requires CellsAgree(st, id, at) && i in at
    ensures i < |st.stack| && at[i] < |id.cells| && g < |st.frames| && IsSlot(st, g, i)
  {
    g :| 0 <= g < |st.frames| && IsSlot(st, g, i);
  }

  lemma LaidWith(st: State, st1: State)
    requires Laid(st) && st1.frames == st.frames && |st1.stack| == |st.stack|
    ensures Laid(st1)
  {
  }

  lemma WriteFrame(st: State, cellFrame: IdealFrame, at: map<nat, nat>, i: nat, v: Value, f: nat, g: nat)
    requires Laid(st) && f < |st.frames| && g < |st.frames| && i < |st.stack| && IsSlot(st, g, i)
    requires FrameAgrees(st.stack, st.frames[f], EndOf(st, f), cellFrame, at)
    ensures FrameAgrees(st.stack[i := v], st.frames[f], EndOf(st, f), cellFrame, at)
  {
    hide FrameAgrees, Laid;
    NotOperand(st, f, g, i);
    FrameEnds(st.stack, st.frames[f], EndOf(st, f), cellFrame, at);
    FrameMoves(st.stack, st.stack[i := v], st.frames[f], EndOf(st, f), cellFrame, at);
  }

  lemma FrameEnds(stack: seq<Value>, fr: Frame, end: int, cellFrame: IdealFrame, at: map<nat, nat>)
    requires FrameAgrees(stack, fr, end, cellFrame, at)
    ensures fr.base + fr.slots <= end <= |stack|
  {
  }

  lemma WriteCells(st: State, id: Ideal, at: map<nat, nat>, i: nat, v: Value)
    requires CellsAgree(st, id, at) && i in at
    ensures CellsAgree(st.(stack := st.stack[i := v]), id.(cells := id.cells[at[i] := v]), at)
  {
    var st1 := st.(stack := st.stack[i := v]);
    forall j | j in at
      ensures exists f :: 0 <= f < |st1.frames| && IsSlot(st1, f, j)
    {
      var f :| 0 <= f < |st.frames| && IsSlot(st, f, j);
      assert IsSlot(st1, f, j);
    }
  }

  lemma WriteUps(st: State, id: Ideal, l: Link, i: nat, v: Value)
    requires UpsAgree(st, id, l) && CellsAgree(st, id, l.at) && i in l.at
    ensures UpsAgree(st.(stack := st.stack[i := v]), id.(cells := id.cells[l.at[i] := v]), l)
  {
    var id1 := id.(cells := id.cells[l.at[i] := v]);
    forall u | 0 <= u < |st.memory|
      ensures UpAgrees(st.memory[u], l.owner[u], id1, l.at)
    {
      assert UpAgrees(st.memory[u], l.owner[u], id, l.at);
      assert l.at[i] in l.at.Values;
    }
  }

  /** A variable is not among the operands of any frame. */
  lemma NotOperand(st: State, f: nat, g: nat, i: nat)
    requires Laid(st) && f < |st.frames| && g < |st.frames| && IsSlot(st, g, i)
    ensures !(st.frames[f].base + st.frames[f].slots <= i < EndOf(st, f))
  {
    if f < g {
      assert st.frames[f].base + st.frames[f].slots < st.frames[f + 1].base;
      assert f + 1 < g ==> st.frames[f + 1].base + st.frames[f + 1].slots < st.frames[g].base;
    } else if g < f {
      assert st.frames[g].base + st.frames[g].slots < st.frames[f].base;
    }
  }

  lemma WriteUp(st: State, id: Ideal, l: Link, u: nat, v: Value)
    requires Agrees(st, id, l) && u < |st.memory|
    ensures l.owner[u] < |id.cells| && Agrees(Stored(st, u, v), id.(cells := id.cells[l.owner[u] := v]), l)
  {
    assert UpAgrees(st.memory[u], l.owner[u], id, l.at);
    match st.memory[u]
    case Open(idx) => WriteSlot(st, id, l, idx, v);
    case Closed(_) => WriteClosed(st, id, l, u, v);
  }

  lemma WriteClosed(st: State, id: Ideal, l: Link, u: nat, v: Value)
    requires Agrees(st, id, l) && u < |st.memory| && st.memory[u].Closed? && l.owner[u] < |id.cells|
    ensures Agrees(st.(memory := st.memory[u := Closed(v)]), id.(cells := id.cells[l.owner[u] := v]), l)
  {
    hide FramesAgree, CellsAgree, UpsAgree, Formed, OneEach;
    FormedIs(st);
    ClosedIs(st, id, l, u);
    ClosedFrames(st, id, l.at, u, v, l.owner[u]);
    ClosedCells(st, id, l.at, u, v, l.owner[u]);
    ClosedOnly(st, st.(memory := st.memory[u := Closed(v)]), u);
    ClosedUps(st, id, l, u, v);
  }

  lemma ClosedIs(st: State, id: Ideal, l: Link, u: nat)
    requires UpsAgree(st, id, l) && u < |st.memory| && st.memory[u].Closed?
    ensures |l.owner| == |st.memory| && l.owner[u] !in l.at.Values
  {
    assert UpAgrees(st.memory[u], l.owner[u], id, l.at);
  }

  lemma ClosedFrames(st: State, id: Ideal, at: map<nat, nat>, u: nat, v: Value, c: nat)
    requires FramesAgree(st, id, at) && u < |st.memory| && c < |id.cells|
    ensures FramesAgree(st.(memory := st.memory[u := Closed(v)]), id.(cells := id.cells[c := v]), at)
  {
    hide FrameAgrees;
    var st1 := st.(memory := st.memory[u := Closed(v)]);
    assert forall f :: 0 <= f < |st.frames| ==> EndOf(st1, f) == EndOf(st, f);
  }

  lemma ClosedCells(st: State, id: Ideal, at: map<nat, nat>, u: nat, v: Value, c: nat)
    requires CellsAgree(st, id, at) && u < |st.memory| && c < |id.cells| && c !in at.Values
    ensures CellsAgree(st.(memory := st.memory[u := Closed(v)]), id.(cells := id.cells[c := v]), at)
  {
    var st1, id1 := st.(memory := st.memory[u := Closed(v)]), id.(cells := id.cells[c := v]);
    forall j | j in at
      ensures st1.stack[j] == id1.cells[at[j]] && exists f :: 0 <= f < |st1.frames| && IsSlot(st1, f, j)
    {
      assert at[j] in at.Values;
      var f :| 0 <= f < |st.frames| && IsSlot(st, f, j);
      assert IsSlot(st1, f, j);
    }
  }

  lemma ClosedUps(st: State, id: Ideal, l: Link, u: nat, v: Value)
    requires UpsAgree(st, id, l) && u < |st.memory| && st.memory[u].Closed? && l.owner[u] < |id.cells|
    ensures UpsAgree(st.(memory := st.memory[u := Closed(v)]), id.(cells := id.cells[l.owner[u] := v]), l)
  {
    var st1, id1 := st.(memory := st.memory[u := Closed(v)]), id.(cells := id.cells[l.owner[u] := v]);
    assert UpAgrees(st.memory[u], l.owner[u], id, l.at);
    forall w | 0 <= w < |st1.memory|
      ensures UpAgrees(st1.memory[w], l.owner[w], id1, l.at)
    {
      assert UpAgrees(st.memory[w], l.owner[w], id, l.at);
    }
  }

  lemma ClosedOnly(st: State, st1: State, u: nat)
    requires Formed(st) && Grouped(st) && OneEach(st) && u < |st.memory| && st.memory[u].Closed?
    requires |st1.memory| == |st.memory| && st1 == st.(memory := st1.memory) && st1.memory[u].Closed?
    requires forall w :: 0 <= w < |st.memory| && w != u ==> st1.memory[w] == st.memory[w]
    ensures Formed(st1) && Grouped(st1) && OneEach(st1)
  {
    hide Formed, Grouped, Listed, Pointing;
    FormedIs(st);
    PlainFormed(st, st1);
    FormedIs(st1);
    OpenAlike(st, st1);
  }

  lemma OpenAlike(st: State, st1: State)
    requires Listed(st) && Listed(st1) && OneEach(st) && st1.open == st.open && |st1.memory| == |st.memory|
    requires forall w :: 0 <= w < |st.memory| && st1.memory[w].Open? ==> st1.memory[w] == st.memory[w]
    ensures OneEach(st1)
  {
  }

  // ----- capturing -----

  /** The cell of a variable of the running frame. */
  lemma SlotCell(st: State, id: Ideal, at: map<nat, nat>, slot: nat)
    requires FramesAgree(st, id, at) && slot < Last(st).slots
    ensures |Running(id).cells| == Last(st).slots
    ensures Last(st).base + slot in at && at[Last(st).base + slot] == Running(id).cells[slot]
  {
    assert FrameAgrees(st.stack, Last(st), |st.stack|, Running(id), at);
  }

  /** A variable that no open upvalue points to is owned by none. */
  lemma NotOwned(st: State, id: Ideal, l: Link, idx: nat)
    requires Listed(st) && CellsAgree(st, id, l.at) && UpsAgree(st, id, l) && idx in l.at && !IsOpenAt(st, idx)
    ensures l.at[idx] !in l.owner
  {
    forall w | 0 <= w < |l.owner|
      ensures l.owner[w] != l.at[idx]
    {
      assert UpAgrees(st.memory[w], l.owner[w], id, l.at);
      assert l.at[idx] in l.at.Values;
      if st.memory[w].Open? {
        var i :| 0 <= i < |st.open| && st.open[i] == w;
        assert IdxOf(st, st.open[i]) != idx;
      }
    }
  }

  lemma CaptureAgrees(st: State, id: Ideal, l: Link, slot: nat) returns (l1: Link)
    requires Agrees(st, id, l) && slot < Last(st).slots && Finds(st, Capture(slot))
    ensures slot < |Running(id).cells|
    ensures Agrees(Captured(st, slot), id.(handles := id.handles + [Running(id).cells[slot]]), l1)
  {
    hide Find, Agrees, Formed, OneEach, Listed, Grouped, FramesAgree, CellsAgree, UpsAgree, Captured, Laid, Pointing;
    Parts(st, id, l);
    SlotCell(st, id, l.at, slot);
    var idx := Last(st).base + slot;
    FormedIs(st);
    CaptureKeeps(st, slot);
    FormedIs(Captured(st, slot));
    match Find(st.memory, st.open, idx)
    case Some(u) => l1 := CaptureShared(st, id, l, slot, u);
    case None => l1 := CaptureNew(st, id, l, slot);
  }

  lemma Parts(st: State, id: Ideal, l: Link)
    requires Agrees(st, id, l)
    ensures Formed(st) && Grouped(st) && OneEach(st) && FramesAgree(st, id, l.at) && CellsAgree(st, id, l.at) && UpsAgree(st, id, l)
    ensures st.frames != [] && id.frames != []
  {
  }

  lemma CaptureShared(st: State, id: Ideal, l: Link, slot: nat, u: nat) returns (l1: Link)
    requires Agrees(st, id, l) && st.frames != [] && id.frames != [] && slot < Last(st).slots && slot < |Running(id).cells|
    requires Last(st).base + slot in l.at && l.at[Last(st).base + slot] == Running(id).cells[slot]
    requires Find(st.memory, st.open, Last(st).base + slot) == Some(u) && Formed(Captured(st, slot)) && Grouped(Captured(st, slot))
    ensures Agrees(Captured(st, slot), id.(handles := id.handles + [Running(id).cells[slot]]), l1)
  {
    hide FramesAgree, CellsAgree, UpsAgree, Find, Laid, Pointing;
    var st1, id1 := Captured(st, slot), id.(handles := id.handles + [Running(id).cells[slot]]);
    l1 := l;
    SharedAgrees(st, id, l, u, Last(st).base + slot);
    MoreHandles(st, st1, id, id1, l.at);
  }

  lemma CaptureNew(st: State, id: Ideal, l: Link, slot: nat) returns (l1: Link)
    requires Agrees(st, id, l) && st.frames != [] && id.frames != [] && slot < Last(st).slots && slot < |Running(id).cells| && Finds(st, Capture(slot))
    requires Last(st).base + slot in l.at && l.at[Last(st).base + slot] == Running(id).cells[slot]
    requires Find(st.memory, st.open, Last(st).base + slot) == None && Formed(Captured(st, slot)) && Grouped(Captured(st, slot))
    ensures Agrees(Captured(st, slot), id.(handles := id.handles + [Running(id).cells[slot]]), l1)
  {
    hide FramesAgree, CellsAgree, UpsAgree, Find, Laid, Pointing, OneEach;
    var idx := Last(st).base + slot;
    var st1, id1 := Captured(st, slot), id.(handles := id.handles + [Running(id).cells[slot]]);
    l1 := l.(owner := l.owner + [l.at[idx]]);
    NotOwned(st, id, l, idx);
    CellIs(st, id, l.at, idx);
    NewAgrees(st, st1, id, l, idx);
    MoreHandles(st, st1, id, id1, l.at);
    NewIsOne(st, slot);
  }

  lemma SharedAgrees(st: State, id: Ideal, l: Link, u: nat, idx: nat)
    requires UpsAgree(st, id, l) && u < |st.memory| && st.memory[u] == Open(idx) && idx in l.at
    ensures UpsAgree(st.(handles := st.handles + [u]), id.(handles := id.handles + [l.at[idx]]), l)
  {
    assert UpAgrees(st.memory[u], l.owner[u], id, l.at);
    var id1 := id.(handles := id.handles + [l.at[idx]]);
    forall w | 0 <= w < |st.memory|
      ensures UpAgrees(st.memory[w], l.owner[w], id1, l.at)
    {
      assert UpAgrees(st.memory[w], l.owner[w], id, l.at);
    }
  }

  /** Captures change neither frames nor variables. */
  lemma MoreHandles(st: State, st1: State, id: Ideal, id1: Ideal, at: map<nat, nat>)
    requires FramesAgree(st, id, at) && CellsAgree(st, id, at)
    requires st1.stack == st.stack && st1.frames == st.frames && id1.cells == id.cells && id1.frames == id.frames
    ensures FramesAgree(st1, id1, at) && CellsAgree(st1, id1, at)
  {
    SameFrames(st, st1, id, id1, at);
    SameVariables(st, st1, id, id1, at);
  }

  lemma SameFrames(st: State, st1: State, id: Ideal, id1: Ideal, at: map<nat, nat>)
    requires FramesAgree(st, id, at)
    requires st1.stack == st.stack && st1.frames == st.frames && id1.frames == id.frames
    ensures FramesAgree(st1, id1, at)
  {
    hide FrameAgrees;
    assert Laid(st1) by { hide FramesAgree; assert Laid(st) by { LaidIs(st, id, at); } }
    forall f | 0 <= f < |st1.frames|
      ensures FrameAgrees(st1.stack, st1.frames[f], EndOf(st1, f), id1.frames[f], at)
    {
      assert EndOf(st1, f) == EndOf(st, f);
    }
  }

  lemma LaidIs(st: State, id: Ideal, at: map<nat, nat>)
    requires FramesAgree(st, id, at)
    ensures Laid(st) && id.frames != []
  {
  }

  lemma SameVariables(st: State, st1: State, id: Ideal, id1: Ideal, at: map<nat, nat>)
    requires CellsAgree(st, id, at)
    requires st1.stack == st.stack && st1.frames == st.frames && id1.cells == id.cells
    ensures CellsAgree(st1, id1, at)
  {
    forall i | i in at
      ensures exists f :: 0 <= f < |st1.frames| && IsSlot(st1, f, i)
    {
      var f :| 0 <= f < |st.frames| && IsSlot(st, f, i);
      assert IsSlot(st1, f, i);
    }
  }

  lemma NewAgrees(st: State, st1: State, id: Ideal, l: Link, idx: nat)
    requires UpsAgree(st, id, l) && idx in l.at && l.at[idx] < |id.cells| && l.at[idx] !in l.owner
    requires st1 == st.(memory := st.memory + [Open(idx)], open := st1.open, handles := st.handles + [|st.memory|])
    ensures UpsAgree(st1, id.(handles := id.handles + [l.at[idx]]), l.(owner := l.owner + [l.at[idx]]))
  {
    var id1, owner := id.(handles := id.handles + [l.at[idx]]), l.owner + [l.at[idx]];
    forall w | 0 <= w < |st1.memory|
      ensures UpAgrees(st1.memory[w], owner[w], id1, l.at)
    {
      if w < |st.memory| {
        assert UpAgrees(st.memory[w], l.owner[w], id, l.at);
      }
    }
  }

  /** A variable without open upvalue gets its only one. */
  lemma NewIsOne(st: State, slot: nat)
    requires Formed(st) && OneEach(st) && slot < Last(st).slots
    requires !IsOpenAt(st, Last(st).base + slot) && Find(st.memory, st.open, Last(st).base + slot).None?
    requires Listed(Captured(st, slot))
    ensures OneEach(Captured(st, slot))
  {
    var st1, idx := Captured(st, slot), Last(st).base + slot;
    forall i, j | 0 <= i < j < |st1.open|
      ensures IdxOf(st1, st1.open[i]) != IdxOf(st1, st1.open[j])
    {
      if j == |st.open| {
        assert IdxOf(st, st.open[i]) == IdxOf(st1, st1.open[i]);
      }
    }
  }

  // ----- calling -----

  lemma EnterAgrees(st: State, id: Ideal, l: Link, args: nat, locals: nat) returns (l1: Link)
    requires Agrees(st, id, l) && Operands(st) > args
    ensures |Running(id).operands| > args
    ensures Agrees(Entered(st, args, locals), IdealEntered(id, args, locals), l1)
  {
    hide FrameAgrees, UpAgrees, Pointing, Grouped, CellsAgree, UpsAgree;
    AgreesIsSound(st, id, l);
    EnterKeeps(st, args, locals);
    l1 := Link(l.owner, EnterAt(st, id, l.at, args, locals));
    EnterFrames(st, id, l.at, args, locals);
    EnterCells(st, id, l.at, args, locals);
    EnterUps(st, id, l, args, locals);
  }

  /** The variables of the new frame have new cells. */
  function EnterAt(st: State, id: Ideal, at: map<nat, nat>, args: nat, locals: nat): map<nat, nat>
    requires args <= |st.stack|
  {
    var base := |st.stack| - args;
    map i | 0 <= i < |st.stack| + locals && (i in at || i >= base) :: if i < base then at[i] else |id.cells| + i - base
  }

  lemma EnterAtIs(st: State, id: Ideal, at: map<nat, nat>, args: nat, locals: nat)
    requires Laid(st) && Operands(st) > args && CellsAgree(st, id, at)
    ensures var at1, base := EnterAt(st, id, at, args, locals), |st.stack| - args;
            && (forall i :: i in at ==> i < base - 1 && i in at1 && at1[i] == at[i])
            && (forall i :: base <= i < base + args + locals ==> i in at1 && at1[i] == |id.cells| + i - base)
            && (forall i :: i in at1 ==> i in at || base <= i < base + args + locals)
  {
    forall i | i in at
      ensures i < |st.stack| - args - 1
    {
      var f :| 0 <= f < |st.frames| && IsSlot(st, f, i);
      BelowRunning(st, f);
    }
  }

  lemma EnterFrames(st: State, id: Ideal, at: map<nat, nat>, args: nat, locals: nat)
    requires FramesAgree(st, id, at) && CellsAgree(st, id, at)
    requires Operands(st) > args && |Running(id).operands| > args
    requires Laid(Entered(st, args, locals))
    ensures FramesAgree(Entered(st, args, locals), IdealEntered(id, args, locals), EnterAt(st, id, at, args, locals))
  {
    hide FrameAgrees, CellsAgree;
    var st1, id1, at1 := Entered(st, args, locals), IdealEntered(id, args, locals), EnterAt(st, id, at, args, locals);
    var n := |st.frames|;
    EnterAtIs(st, id, at, args, locals);
    forall f | 0 <= f < |st1.frames|
      ensures FrameAgrees(st1.stack, st1.frames[f], EndOf(st1, f), id1.frames[f], at1)
    {
      if f < n - 1 {
        BelowRunning(st, f);
        FrameMoves(st.stack, st1.stack, st.frames[f], EndOf(st, f), id.frames[f], at);
        FrameGrows(st1.stack, st.frames[f], EndOf(st, f), id.frames[f], at, at1);
      } else if f == n - 1 {
        CallerOperands(st.stack, st1.stack, Last(st), Running(id), at, args);
        FrameGrows(st1.stack, Last(st), |st.stack| - args - 1, id1.frames[f], at, at1);
      } else {
        NewFrame(st1.stack, st1.frames[f], id1.frames[f], at1, |id.cells|);
      }
    }
  }

  lemma FrameGrows(stack: seq<Value>, fr: Frame, end: int, cellFrame: IdealFrame, at: map<nat, nat>, at1: map<nat, nat>)
    requires FrameAgrees(stack, fr, end, cellFrame, at)
    requires forall i :: fr.base <= i < fr.base + fr.slots && i in at ==> i in at1 && at1[i] == at[i]
    ensures FrameAgrees(stack, fr, end, cellFrame, at1)
  {
  }

  lemma CallerOperands(stack: seq<Value>, stack1: seq<Value>, fr: Frame, cellFrame: IdealFrame, at: map<nat, nat>, args: nat)
    requires FrameAgrees(stack, fr, |stack|, cellFrame, at) && |cellFrame.operands| > args
    requires |stack1| >= |stack| && stack1[..|stack|] == stack
    ensures var t := cellFrame.operands;
            FrameAgrees(stack1, fr, |stack| - args - 1, cellFrame.(operands := t[..|t| - args - 1]), at)
  {
    var start, end := fr.base + fr.slots, |stack| - args - 1;
    assert forall i :: 0 <= i < |stack| ==> stack1[..|stack|][i] == stack1[i];
    assert stack1[start..end] == stack[start..][..end - start];
  }

  lemma NewFrame(stack: seq<Value>, fr: Frame, cellFrame: IdealFrame, at: map<nat, nat>, first: nat)
    requires fr.base + fr.slots == |stack| && cellFrame.operands == []
    requires cellFrame.cells == seq(fr.slots, i requires 0 <= i < fr.slots => first + i)
    requires forall i :: fr.base <= i < |stack| ==> i in at && at[i] == first + i - fr.base
    ensures FrameAgrees(stack, fr, |stack|, cellFrame, at)
  {
  }

  lemma EnterCells(st: State, id: Ideal, at: map<nat, nat>, args: nat, locals: nat)
    requires FramesAgree(st, id, at) && CellsAgree(st, id, at)
    requires Operands(st) > args && |Running(id).operands| > args
    ensures CellsAgree(Entered(st, args, locals), IdealEntered(id, args, locals), EnterAt(st, id, at, args, locals))
  {
    hide EnterAt, FramesAgree, IdealEntered;
    LaidIs(st, id, at);
    var st1, at1 := Entered(st, args, locals), EnterAt(st, id, at, args, locals);
    EnterAtIs(st, id, at, args, locals);
    forall i | i in at1
      ensures i < |st1.stack| && at1[i] < |IdealEntered(id, args, locals).cells|
      ensures st1.stack[i] == IdealEntered(id, args, locals).cells[at1[i]]
      ensures exists f :: 0 <= f < |st1.frames| && IsSlot(st1, f, i)
    {
      if i in at {
        var f := VariableFrame(st, id, at, i);
        assert IsSlot(st1, f, i);
        OldVariable(st, id, at, args, locals, i);
      } else {
        assert IsSlot(st1, |st.frames|, i);
        NewVariable(st, id, at, args, locals, i);
      }
    }
  }

  lemma OldVariable(st: State, id: Ideal, at: map<nat, nat>, args: nat, locals: nat, i: nat)
    requires Laid(st) && CellsAgree(st, id, at) && i in at
    requires id.frames != [] && Operands(st) > args && |Running(id).operands| > args
    ensures var cells := IdealEntered(id, args, locals).cells;
            i < |st.stack| && at[i] < |cells| && Entered(st, args, locals).stack[i] == cells[at[i]]
  {
  }

  lemma NewVariable(st: State, id: Ideal, at: map<nat, nat>, args: nat, locals: nat, i: nat)
    requires FramesAgree(st, id, at) && Operands(st) > args && |Running(id).operands| > args
    requires |st.stack| - args <= i < |st.stack| + locals
    ensures var c, cells := |id.cells| + i - (|st.stack| - args), IdealEntered(id, args, locals).cells;
            c < |cells| && Entered(st, args, locals).stack[i] == cells[c]
  {
    var t := Running(id).operands;
    assert FrameAgrees(st.stack, Last(st), |st.stack|, Running(id), at);
    assert forall j :: |t| - args <= j < |t| ==> t[j] == st.stack[|st.stack| - |t| + j];
  }

  lemma EnterUps(st: State, id: Ideal, l: Link, args: nat, locals: nat)
    requires Laid(st) && CellsAgree(st, id, l.at) && UpsAgree(st, id, l) && id.frames != []
    requires Operands(st) > args && |Running(id).operands| > args
    ensures UpsAgree(Entered(st, args, locals), IdealEntered(id, args, locals), l.(at := EnterAt(st, id, l.at, args, locals)))
  {
    var id1, at1 := IdealEntered(id, args, locals), EnterAt(st, id, l.at, args, locals);
    EnterAtIs(st, id, l.at, args, locals);
    hide EnterAt;
    forall u | 0 <= u < |st.memory|
      ensures UpAgrees(st.memory[u], l.owner[u], id1, at1)
    {
      assert UpAgrees(st.memory[u], l.owner[u], id, l.at);
      forall i | i in at1
        ensures st.memory[u].Closed? ==> at1[i] != l.owner[u]
      {
        assert i in l.at ==> l.at[i] in l.at.Values;
      }
    }
  }

  // ----- returning -----

  /** The variables of the frame that ends are no longer on the stack. */
  function LeaveAt(st: State, at: map<nat, nat>): map<nat, nat>
    requires st.frames != []
  {
    map i | i in at && i < Last(st).base :: at[i]
  }

  lemma LeaveAgrees(st: State, id: Ideal, l: Link) returns (l1: Link)
    requires Agrees(st, id, l) && |st.frames| > 1 && Operands(st) > 0
    ensures |id.frames| > 1 && Running(id).operands != []
    ensures Agrees(Left(st), IdealLeft(id), l1)
  {
    hide FrameAgrees, UpAgrees, Pointing, Grouped, CellsAgree, UpsAgree, Left, Laid, Listed;
    AgreesIsSound(st, id, l);
    LeaveKeeps(st);
    l1 := l.(at := LeaveAt(st, l.at));
    LeaveFrames(st, id, l.at);
    LeaveCells(st, id, l.at);
    LeaveUps(st, id, l);
    LeaveOneEach(st);
  }

  lemma LeaveOneEach(st: State)
    requires Formed(st) && OneEach(st) && Grouped(st) && |st.frames| > 1 && Operands(st) > 0
    requires Listed(Left(st))
    ensures OneEach(Left(st))
  {
    hide Left, Laid, Pointing, Grouped;
    LeftParts(st);
    var st1 := Left(st);
    forall i | 0 <= i < |st1.open|
      ensures st1.open[i] == st.open[i] && IdxOf(st1, st1.open[i]) == IdxOf(st, st.open[i])
    {
      LeaveMemory(st, st1.open[i]);
    }
  }

  lemma LeaveFrames(st: State, id: Ideal, at: map<nat, nat>)
    requires FramesAgree(st, id, at) && Formed(st) && |st.frames| > 1 && Operands(st) > 0 && Running(id).operands != []
    requires Laid(Left(st))
    ensures FramesAgree(Left(st), IdealLeft(id), LeaveAt(st, at))
  {
    hide FrameAgrees, Left, Listed, Pointing;
    LeftParts(st);
    var st1, id1, at1 := Left(st), IdealLeft(id), LeaveAt(st, at);
    var m := |st.frames| - 1;
    ReturnedValue(st.stack, Last(st), Running(id), at);
    forall f | 0 <= f < |st1.frames|
      ensures FrameAgrees(st1.stack, st1.frames[f], EndOf(st1, f), id1.frames[f], at1)
    {
      BelowRunning(st, f);
      if f < m - 1 {
        assert st.frames[f + 1].base + st.frames[f + 1].slots < st.frames[m].base;
        FrameMoves(st.stack, st1.stack, st.frames[f], EndOf(st, f), id.frames[f], at);
      } else {
        CallerResult(st.stack, st1.stack, st.frames[f], EndOf(st, f), id.frames[f], at, st.stack[|st.stack| - 1]);
      }
      FrameGrows(st1.stack, st1.frames[f], EndOf(st1, f), id1.frames[f], at, at1);
    }
  }

  lemma ReturnedValue(stack: seq<Value>, fr: Frame, cellFrame: IdealFrame, at: map<nat, nat>)
    requires FrameAgrees(stack, fr, |stack|, cellFrame, at) && cellFrame.operands != []
    ensures cellFrame.operands[|cellFrame.operands| - 1] == stack[|stack| - 1]
  {
  }

  lemma CallerResult(stack: seq<Value>, stack1: seq<Value>, fr: Frame, end: nat, cellFrame: IdealFrame, at: map<nat, nat>, v: Value)
    requires FrameAgrees(stack, fr, end, cellFrame, at) && end < |stack| && stack1 == stack[..end] + [v]
    ensures FrameAgrees(stack1, fr, |stack1|, cellFrame.(operands := cellFrame.operands + [v]), at)
  {
    var start := fr.base + fr.slots;
    assert stack1[start..] == stack[start..end] + [v];
  }

  lemma LeaveCells(st: State, id: Ideal, at: map<nat, nat>)
    requires Formed(st) && CellsAgree(st, id, at) && |st.frames| > 1 && Operands(st) > 0
    requires |id.frames| > 1 && Running(id).operands != []
    ensures CellsAgree(Left(st), IdealLeft(id), LeaveAt(st, at))
  {
    hide Left, Listed, Pointing;
    LeftParts(st);
    var st1, at1 := Left(st), LeaveAt(st, at);
    forall i | i in at1
      ensures i < Last(st).base - 1 && exists f :: 0 <= f < |st1.frames| && IsSlot(st1, f, i)
    {
      var f :| 0 <= f < |st.frames| && IsSlot(st, f, i);
      assert f < |st.frames| - 1 && IsSlot(st1, f, i);
      BelowRunning(st, f);
    }
  }

  lemma LeaveUps(st: State, id: Ideal, l: Link)
    requires Agrees(st, id, l) && Grouped(st) && |st.frames| > 1 && Operands(st) > 0
    requires |id.frames| > 1 && Running(id).operands != []
    ensures UpsAgree(Left(st), IdealLeft(id), l.(at := LeaveAt(st, l.at)))
  {
    hide Left, FramesAgree, Grouped, OneEach, Laid, Pointing;
    LeftParts(st);
    var st1, id1, at1 := Left(st), IdealLeft(id), LeaveAt(st, l.at);
    forall u | 0 <= u < |st.memory|
      ensures UpAgrees(st1.memory[u], l.owner[u], id1, at1)
    {
      assert UpAgrees(st.memory[u], l.owner[u], id, l.at);
      LeaveClosesExactly(st, u);
      LoadIsCell(st, id, l, u);
      if l.owner[u] in at1.Values {
        var i :| i in at1 && at1[i] == l.owner[u];
        assert l.at[i] in l.at.Values;
      }
    }
  }

  // ----- runs -----

  /** One action: what the virtual machine does corresponds to what happens to cells. */
  lemma StepAgrees(st: State, id: Ideal, l: Link, a: Action) returns (l1: Link)
    requires Agrees(st, id, l) && Allowed(st, a) && Finds(st, a)
    ensures Sound(id) && IdealAllowed(id, a) && Agrees(Step(st, a), IdealStep(id, a), l1)
  {
    hide Agrees, FramesAgree, CellsAgree, UpsAgree, Sound, Captured, Left, Entered, IdealLeft, IdealEntered, Formed, OneEach;
    AgreesIsSound(st, id, l);
    Parts(st, id, l);
    var start, t := Last(st).base + Last(st).slots, Running(id).operands;
    assert st.stack == st.stack[..start] + t && |t| == |st.stack| - start by { StackIs(st, id, l); }
    l1 := l;
    match a
    case Push(v) =>
      OperandsAgree(st, id, l, t + [v]);
      assert st.stack[..start] + (t + [v]) == st.stack + [v];
    case Drop =>
      OperandsAgree(st, id, l, t[..|t| - 1]);
      assert st.stack[..start] + t[..|t| - 1] == st.stack[..|st.stack| - 1];
    case Enter(args, locals) => l1 := EnterAgrees(st, id, l, args, locals);
    case GetLocal(slot) =>
      SlotCell(st, id, l.at, slot);
      SlotValue(st, id, l.at, slot);
      var v := id.cells[Running(id).cells[slot]];
      OperandsAgree(st, id, l, t + [v]);
      assert st.stack[..start] + (t + [v]) == st.stack + [v];
    case SetLocal(slot) =>
      SlotCell(st, id, l.at, slot);
      WriteSlot(st, id, l, Last(st).base + slot, t[|t| - 1]);
    case Capture(slot) => l1 := CaptureAgrees(st, id, l, slot);
    case GetUp(handle) =>
      HandleIs(st, id, l, handle);
      LoadIsCell(st, id, l, st.handles[handle]);
      var v := id.cells[id.handles[handle]];
      OperandsAgree(st, id, l, t + [v]);
      assert st.stack[..start] + (t + [v]) == st.stack + [v];
    case SetUp(handle) =>
      HandleIs(st, id, l, handle);
      WriteUp(st, id, l, st.handles[handle], t[|t| - 1]);
    case Leave => l1 := LeaveAgrees(st, id, l);
  }

  /** The operands of the running frame are on top of the stack. */
  lemma StackIs(st: State, id: Ideal, l: Link)
    requires Agrees(st, id, l)
    ensures st.frames != [] && id.frames != []
    ensures var start := Last(st).base + Last(st).slots;
            start <= |st.stack| && st.stack[start..] == Running(id).operands && st.stack == st.stack[..start] + Running(id).operands
  {
    assert FrameAgrees(st.stack, Last(st), |st.stack|, Running(id), l.at);
  }

  lemma SlotValue(st: State, id: Ideal, at: map<nat, nat>, slot: nat)
    requires FramesAgree(st, id, at) && CellsAgree(st, id, at) && slot < Last(st).slots
    ensures slot < |Running(id).cells| && Running(id).cells[slot] < |id.cells|
    ensures st.stack[Last(st).base + slot] == id.cells[Running(id).cells[slot]]
  {
    SlotCell(st, id, at, slot);
  }

  lemma HandleIs(st: State, id: Ideal, l: Link, handle: nat)
    requires UpsAgree(st, id, l) && handle < |st.handles|
    ensures handle < |id.handles| && st.handles[handle] < |st.memory| == |l.owner|
    ensures l.owner[st.handles[handle]] == id.handles[handle]
  {
  }

  const FIRST: State := State([], [Frame(0, 0)], [], [], [])
  const IDEAL_FIRST: Ideal := Ideal([], [IdealFrame([], [])], [])

  /** All actions of a run can be done, one after the other. */
  ghost predicate Possible(st: State, run: seq<Action>)
    requires Formed(st) && Grouped(st)
    decreases |run|
  {
    run != [] ==> Allowed(st, run[0]) && (StepKeeps(st, run[0]); Possible(Step(st, run[0]), run[1..]))
  }

  /** Every capture of a variable with an open upvalue finds it. */
  ghost predicate Sharing(st: State, run: seq<Action>)
    requires Formed(st) && Grouped(st) && Possible(st, run)
    decreases |run|
  {
    run != [] ==> Finds(st, run[0]) && (StepKeeps(st, run[0]); Sharing(Step(st, run[0]), run[1..]))
  }

  /** What a run leaves for the frame that is running at its end. */
  ghost function Outcome(st: State, run: seq<Action>): seq<Value>
    requires Formed(st) && Grouped(st) && Possible(st, run)
    decreases |run|
  {
    if run == [] then st.stack[Last(st).base + Last(st).slots..]
    else
      StepKeeps(st, run[0]);
      Outcome(Step(st, run[0]), run[1..])
  }

  ghost function IdealOutcome(id: Ideal, run: seq<Action>): Option<seq<Value>>
    decreases |run|
  {
    if !Sound(id) then None
    else if run == [] then Some(Running(id).operands)
    else if !IdealAllowed(id, run[0]) then None
    else IdealOutcome(IdealStep(id, run[0]), run[1..])
  }

  lemma {:induction false} RunAgrees(st: State, id: Ideal, l: Link, run: seq<Action>)
    requires Agrees(st, id, l) && Grouped(st) && Possible(st, run) && Sharing(st, run)
    ensures IdealOutcome(id, run) == Some(Outcome(st, run))
    decreases |run|
  {
    hide Agrees, Grouped, Step, IdealStep, Finds, Allowed, IdealAllowed, Sound;
    AgreesIsSound(st, id, l);
    if run == [] {
      StackIs(st, id, l);
    } else {
      var l1 := StepAgrees(st, id, l, run[0]);
      Parts(st, id, l);
      StepKeeps(st, run[0]);
      RunAgrees(Step(st, run[0]), IdealStep(id, run[0]), l1, run[1..]);
    }
  }

  lemma FirstAgrees()
    ensures Formed(FIRST) && Grouped(FIRST) && Agrees(FIRST, IDEAL_FIRST, Link([], map[]))
  {
  }

  /** Whatever closures and frames do, if captures find what is there to find, all values
      seen are those of variables in cells: closures over one variable share it, before and
      after its frame has returned. */
  lemma CapturesAreCells(run: seq<Action>)
    requires Formed(FIRST) && Grouped(FIRST) && Possible(FIRST, run) && Sharing(FIRST, run)
    ensures IdealOutcome(IDEAL_FIRST, run) == Some(Outcome(FIRST, run))
  {
    hide Formed, Grouped, Agrees, Possible, Sharing;
    FirstAgrees();
    RunAgrees(FIRST, IDEAL_FIRST, Link([], map[]), run);
  }

  // ----- exactly when captures share -----

  /** A capture keeps one open upvalue for each variable exactly when it finds the one that
      is there. */
  lemma OneEachIff(st: State, slot: nat)
    requires Formed(st) && Grouped(st) && OneEach(st) && slot < Last(st).slots
    ensures Formed(Captured(st, slot)) && (OneEach(Captured(st, slot)) <==> Finds(st, Capture(slot)))
  {
    hide Find, Pointing, Listed, Grouped, OneEach, IsOpenAt;
    CaptureKeeps(st, slot);
    FormedIs(Captured(st, slot));
    FormedIs(st);
    var idx := Last(st).base + slot;
    if Find(st.memory, st.open, idx).Some? {
      OpenAlike(st, Captured(st, slot));
    } else if IsOpenAt(st, idx) {
      SecondUpvalue(st, Captured(st, slot), idx);
    } else {
      NewIsOne(st, slot);
    }
  }

  lemma SecondUpvalue(st: State, st1: State, idx: nat)
    requires Listed(st) && IsOpenAt(st, idx) && Listed(st1)
    requires st1.open == st.open + [|st.memory|] && st1.memory == st.memory + [Open(idx)]
    ensures !OneEach(st1)
  {
    var i :| 0 <= i < |st.open| && IdxOf(st, st.open[i]) == idx;
    assert st1.open[i] == st.open[i] && IdxOf(st1, st1.open[i]) == idx;
    assert st1.open[|st.open|] == |st.memory| && IdxOf(st1, st1.open[|st.open|]) == idx;
  }

  /** Among different numbers, nothing smaller follows the one number `x`. */
  lemma NothingSmallerBehind(xs: seq<nat>, x: nat)
    requires forall i, j :: 0 <= i < j < |xs| ==> xs[i] != xs[j]
    ensures (x in xs ==> exists i :: 0 <= i < |xs| && LastAt(xs, i, x))
       <==> forall i, j :: 0 <= i < j < |xs| && xs[i] == x ==> xs[j] > x
  {
    if k :| 0 <= k < |xs| && LastAt(xs, k, x) {
    } else if x in xs {
      var i :| 0 <= i < |xs| && xs[i] == x;
      assert !LastAt(xs, i, x);
      var j :| i < j < |xs| && xs[j] < x;
    }
  }

  /** The variables of the open upvalues, oldest first. */
  function OpenIdxs(st: State): seq<nat>
    requires Listed(st)
  {
    seq(|st.open|, i requires 0 <= i < |st.open| => IdxOf(st, st.open[i]))
  }

  /** It finds it exactly when no smaller index has been opened behind it. */
  lemma FindsIff(st: State, slot: nat)
    requires Formed(st) && OneEach(st) && slot < Last(st).slots
    ensures var idx, xs := Last(st).base + slot, OpenIdxs(st);
            Finds(st, Capture(slot)) <==> forall i, j :: 0 <= i < j < |xs| && xs[i] == idx ==> xs[j] > idx
  {
    hide Find, Pointing;
    var idx, xs := Last(st).base + slot, OpenIdxs(st);
    FindIff(st.memory, st.open, xs, idx);
    OpenAtIff(st, idx);
    NothingSmallerBehind(xs, idx);
  }

  lemma OpenAtIff(st: State, idx: nat)
    requires Listed(st)
    ensures idx in OpenIdxs(st) <==> IsOpenAt(st, idx)
  {
    var xs := OpenIdxs(st);
    if i :| 0 <= i < |st.open| && IdxOf(st, st.open[i]) == idx {
      assert xs[i] == idx;
    }
    if i :| 0 <= i < |xs| && xs[i] == idx {
      assert IdxOf(st, st.open[i]) == idx;
    }
  }

  lemma OtherActionsKeepOne(st: State, a: Action)
    requires Formed(st) && Grouped(st) && OneEach(st) && Allowed(st, a) && !a.Capture?
    ensures Formed(Step(st, a)) && OneEach(Step(st, a))
  {
    hide Formed, Grouped, Left, Laid, Pointing, Listed, Stored;
    StepKeeps(st, a);
    FormedIs(st);
    FormedIs(Step(st, a));
    if a.Leave? {
      LeaveOneEach(st);
    } else if a.Enter? {
      OpenAlike(st, Entered(st, a.args, a.locals));
    } else {
      PlainParts(st, a);
      OpenAlike(st, Step(st, a));
    }
  }

  /** In every state of a run each variable has at most one open upvalue. */
  ghost predicate AlwaysOne(st: State, run: seq<Action>)
    requires Formed(st) && Grouped(st) && Possible(st, run)
    decreases |run|
  {
    OneEach(st) && (run != [] ==> (StepKeeps(st, run[0]); AlwaysOne(Step(st, run[0]), run[1..])))
  }

  /** The premise of the main result is exact: a run never gives a variable a second open
      upvalue exactly when every capture finds what is there to find. */
  lemma {:induction false} SharingIff(st: State, run: seq<Action>)
    requires Formed(st) && Grouped(st) && OneEach(st) && Possible(st, run)
    ensures AlwaysOne(st, run) <==> Sharing(st, run)
    decreases |run|
  {
    hide Grouped, Step, Finds, Allowed, Laid, Pointing, Listed, OneEach;
    if run != [] {
      StepKeeps(st, run[0]);
      StepOneIff(st, run[0]);
      if OneEach(Step(st, run[0])) {
        SharingIff(Step(st, run[0]), run[1..]);
      }
    }
  }

  lemma StepOneIff(st: State, a: Action)
    requires Formed(st) && Grouped(st) && OneEach(st) && Allowed(st, a)
    ensures Formed(Step(st, a)) && (OneEach(Step(st, a)) <==> Finds(st, a))
  {
    hide Formed, Grouped, OneEach, Captured, Left, Stored, Entered, Load, IsOpenAt, Find;
    match a
    case Capture(slot) => OneEachIff(st, slot);
    case _ => OtherActionsKeepOne(st, a);
  }

  // ----- ascending captures are enough -----

  /** The open list is ascending. */
  ghost predicate Ordered(st: State)
    requires Listed(st)
  {
    forall i, j :: 0 <= i < j < |st.open| ==> IdxOf(st, st.open[i]) < IdxOf(st, st.open[j])
  }

  /** A variable is captured that has been captured already, or that comes after all
      captured variables of its frame. */
  ghost predicate InOrder(st: State, a: Action)
    requires Formed(st)
  {
    a.Capture? ==>
      var idx := Last(st).base + a.slot;
      IsOpenAt(st, idx) || forall i :: 0 <= i < |st.open| && IdxOf(st, st.open[i]) >= Last(st).base ==> IdxOf(st, st.open[i]) < idx
  }

  ghost predicate Ascending(st: State, run: seq<Action>)
    requires Formed(st) && Grouped(st) && Possible(st, run)
    decreases |run|
  {
    run != [] ==> InOrder(st, run[0]) && (StepKeeps(st, run[0]); Ascending(Step(st, run[0]), run[1..]))
  }

  lemma OrderedFinds(st: State, a: Action)
    requires Formed(st) && Ordered(st) && Allowed(st, a)
    ensures OneEach(st) && Finds(st, a)
  {
    hide Find, Pointing;
    if a.Capture? {
      FindsIff(st, a.slot);
    }
  }

  lemma OrderedStep(st: State, a: Action)
    requires Formed(st) && Grouped(st) && Ordered(st) && Allowed(st, a) && InOrder(st, a)
    ensures Formed(Step(st, a)) && Ordered(Step(st, a))
  {
    hide Formed, Grouped, Left, Laid, Pointing, Listed, Stored, Captured, Find;
    StepKeeps(st, a);
    FormedIs(st);
    FormedIs(Step(st, a));
    match a
    case Leave => LeaveOrdered(st);
    case Capture(slot) => CaptureOrdered(st, slot);
    case Enter(args, locals) => OrderedAlike(st, Entered(st, args, locals));
    case _ =>
      PlainParts(st, a);
      OrderedAlike(st, Step(st, a));
  }

  lemma OrderedAlike(st: State, st1: State)
    requires Listed(st) && Listed(st1) && Ordered(st) && st1.open == st.open && |st1.memory| == |st.memory|
    requires forall w :: 0 <= w < |st.memory| && st1.memory[w].Open? ==> st1.memory[w] == st.memory[w]
    ensures Ordered(st1)
  {
  }

  lemma LeaveOrdered(st: State)
    requires Formed(st) && Ordered(st) && Grouped(st) && |st.frames| > 1 && Operands(st) > 0
    requires Listed(Left(st))
    ensures Ordered(Left(st))
  {
    hide Left, Laid, Pointing, Grouped;
    LeftParts(st);
    var st1 := Left(st);
    forall i | 0 <= i < |st1.open|
      ensures st1.open[i] == st.open[i] && IdxOf(st1, st1.open[i]) == IdxOf(st, st.open[i])
    {
      LeaveMemory(st, st1.open[i]);
    }
  }

  lemma CaptureOrdered(st: State, slot: nat)
    requires Formed(st) && Ordered(st) && slot < Last(st).slots && InOrder(st, Capture(slot))
    requires Listed(Captured(st, slot))
    ensures Ordered(Captured(st, slot))
  {
    hide Find, Pointing;
    OrderedFinds(st, Capture(slot));
    var st1, idx := Captured(st, slot), Last(st).base + slot;
    if Find(st.memory, st.open, idx).None? {
      forall i, j | 0 <= i < j < |st1.open|
        ensures IdxOf(st1, st1.open[i]) < IdxOf(st1, st1.open[j])
      {
        assert IdxOf(st, st.open[i]) == IdxOf(st1, st1.open[i]);
        assert j < |st.open| ==> IdxOf(st, st.open[j]) == IdxOf(st1, st1.open[j]);
      }
    } else {
      OrderedAlike(st, st1);
    }
  }

  /** If every frame captures its variables in ascending order, all captures share. */
  lemma {:induction false} AscendingShares(st: State, run: seq<Action>)
    requires Formed(st) && Grouped(st) && Ordered(st) && Possible(st, run) && Ascending(st, run)
    ensures Sharing(st, run)
    decreases |run|
  {
    hide Formed, Grouped, Ordered, Step, Finds, InOrder, Allowed;
    if run != [] {
      OrderedFinds(st, run[0]);
      OrderedStep(st, run[0]);
      StepKeeps(st, run[0]);
      AscendingShares(Step(st, run[0]), run[1..]);
    }
  }

  // ----- captures in another order -----

  /** A frame captures its second variable, its first, and its second again; then it
      returns, and the first closure writes what the third reads. */
  const SWAPPED: seq<Action> :=
    [Push(NullV), Enter(0, 2), Capture(1), Capture(0), Capture(1), Push(IntV(7)), Leave, SetUp(0), GetUp(2)]

  function SwappedAt(i: nat): State {
    var f := [Frame(0, 0), Frame(1, 2)];
    var s := State([NullV, NullV, NullV], f, [Open(2), Open(1), Open(2)], [0, 1, 2], [0, 1, 2]);
    var done := [Closed(NullV), Closed(NullV), Closed(NullV)];
    if i == 0 then FIRST
    else if i == 1 then State([NullV], [Frame(0, 0)], [], [], [])
    else if i <= 5 then s.(memory := s.memory[..i - 2], open := s.open[..i - 2], handles := s.handles[..i - 2])
    else if i == 6 then s.(stack := s.stack + [IntV(7)])
    else if i == 7 then State([IntV(7)], [Frame(0, 0)], done, [], [0, 1, 2])
    else State(if i == 8 then [IntV(7)] else [IntV(7), NullV], [Frame(0, 0)], done[0 := Closed(IntV(7))], [], [0, 1, 2])
  }

  lemma SwappedCapture(i: nat)
    requires 2 <= i < 5 && Formed(SwappedAt(i))
    ensures Allowed(SwappedAt(i), SWAPPED[i]) && Step(SwappedAt(i), SWAPPED[i]) == SwappedAt(i + 1)
  {
    var st, idx := SwappedAt(i), if i == 3 then 1 else 2;
    SwappedFindsNone(i);
    assert Last(st).base + SWAPPED[i].slot == idx;
    assert Captured(st, SWAPPED[i].slot) == SwappedAt(i + 1) by { hide Find, Formed; }
  }

  lemma SwappedFindsNone(i: nat)
    requires 2 <= i < 5 && Formed(SwappedAt(i))
    ensures Find(SwappedAt(i).memory, SwappedAt(i).open, if i == 3 then 1 else 2) == None
  {
    hide Laid, Pointing;
    var st := SwappedAt(i);
    if i > 2 {
      assert st.open[..|st.open| - 1] == [0][..i - 3];
    }
  }

  lemma SwappedLeave()
    requires Formed(SwappedAt(6))
    ensures Allowed(SwappedAt(6), Leave) && Step(SwappedAt(6), Leave) == SwappedAt(7)
  {
    hide Formed, Listed, Laid, Pointing, StayOpen, ClosedFrom;
    SwappedNoneStay();
    SwappedClosed();
  }

  lemma SwappedNoneStay()
    requires Formed(SwappedAt(6))
    ensures StayOpen(SwappedAt(6).memory, SwappedAt(6).open, 0) == 0
  {
    hide Formed, Laid, Pointing;
    var st := SwappedAt(6);
    var n := StayOpen(st.memory, st.open, 0);
  }

  lemma SwappedClosed()
    requires Formed(SwappedAt(6))
    ensures ClosedFrom(SwappedAt(6), 0) == SwappedAt(7).memory
  {
    hide Formed, Listed, Laid, Pointing;
    var st := SwappedAt(6);
    assert st.open[0..] == [0, 1, 2];
    assert Load(st, 0) == Load(st, 1) == Load(st, 2) == NullV;
  }

  lemma SwappedStep(i: nat)
    requires i < 9 && Formed(SwappedAt(i))
    ensures Allowed(SwappedAt(i), SWAPPED[i]) && Step(SwappedAt(i), SWAPPED[i]) == SwappedAt(i + 1)
  {
    if 2 <= i < 5 {
      SwappedCapture(i);
    } else if i == 6 {
      SwappedLeave();
    } else {
      hide Formed, Captured, Left;
    }
  }

  lemma {:induction false} SwappedFrom(i: nat)
    requires i <= 9 && Formed(SwappedAt(i)) && Grouped(SwappedAt(i))
    ensures Possible(SwappedAt(i), SWAPPED[i..]) && Outcome(SwappedAt(i), SWAPPED[i..]) == [IntV(7), NullV]
    decreases 9 - i
  {
    hide Formed, Grouped, Step, Allowed;
    if i < 9 {
      SwappedStep(i);
      StepKeeps(SwappedAt(i), SWAPPED[i]);
      SwappedFrom(i + 1);
      assert SWAPPED[i..][0] == SWAPPED[i] && SWAPPED[i..][1..] == SWAPPED[i + 1..];
    }
  }

  function SwappedCells(i: nat): Ideal {
    var frames := [IdealFrame([], []), IdealFrame([0, 1], [])];
    var handles := [1, 0, 1];
    if i == 0 then IDEAL_FIRST
    else if i == 1 then Ideal([], [IdealFrame([], [NullV])], [])
    else if i <= 5 then Ideal([NullV, NullV], frames, handles[..i - 2])
    else if i == 6 then Ideal([NullV, NullV], frames[1 := IdealFrame([0, 1], [IntV(7)])], handles)
    else if i == 7 then Ideal([NullV, NullV], [IdealFrame([], [IntV(7)])], handles)
    else Ideal([NullV, IntV(7)], [IdealFrame([], if i == 8 then [IntV(7)] else [IntV(7), IntV(7)])], handles)
  }

  lemma SwappedCellsStep(i: nat)
    requires i < 9
    ensures Sound(SwappedCells(i)) && IdealAllowed(SwappedCells(i), SWAPPED[i])
    ensures IdealStep(SwappedCells(i), SWAPPED[i]) == SwappedCells(i + 1)
  {
    if i == 1 {
      SwappedCellsEnter();
    } else if i == 6 {
      SwappedCellsLeave();
    } else if 2 <= i < 5 {
      assert [1, 0, 1][..i - 2] + [if i == 3 then 0 else 1] == [1, 0, 1][..i - 1];
    } else if i == 0 || i == 5 {
      SwappedCellsPush(i);
    } else {
      SwappedCellsShare(i);
    }
  }

  lemma SwappedCellsPush(i: nat)
    requires i == 0 || i == 5
    ensures IdealStep(SwappedCells(i), SWAPPED[i]) == SwappedCells(i + 1)
  {
    var none: seq<Value> := [];
    assert none + [NullV] == [NullV] && none + [IntV(7)] == [IntV(7)];
    assert i == 0 ==> IdealStep(SwappedCells(0), SWAPPED[0]).frames[0] == SwappedCells(1).frames[0];
    assert i == 5 ==> IdealStep(SwappedCells(5), SWAPPED[5]).frames[1] == SwappedCells(6).frames[1];
  }

  lemma SwappedCellsShare(i: nat)
    requires i == 7 || i == 8
    ensures IdealStep(SwappedCells(i), SWAPPED[i]) == SwappedCells(i + 1)
  {
    assert [IntV(7)] + [IntV(7)] == [IntV(7), IntV(7)];
    assert i == 7 ==> [NullV, NullV][1 := IntV(7)] == [NullV, IntV(7)];
    assert i == 8 ==> IdealStep(SwappedCells(8), SWAPPED[8]).frames[0] == SwappedCells(9).frames[0];
  }

  lemma SwappedCellsEnter()
    ensures IdealStep(SwappedCells(1), Enter(0, 2)) == SwappedCells(2)
  {
    var id := IdealEntered(SwappedCells(1), 0, 2);
    var none: seq<Value> := [];
    assert [NullV][1..] == none && [NullV][..0] == none;
    assert id.cells == [NullV, NullV];
    assert id.frames[1].cells == [0, 1];
    assert id.frames[0] == IdealFrame([], none);
  }

  lemma SwappedCellsLeave()
    ensures IdealStep(SwappedCells(6), Leave) == SwappedCells(7)
  {
    var id := IdealLeft(SwappedCells(6));
    var none: seq<Value> := [];
    assert none + [IntV(7)] == [IntV(7)];
    assert id.frames[0] == IdealFrame([], [IntV(7)]);
  }

  lemma {:induction false} SwappedCellsFrom(i: nat)
    requires i <= 9
    ensures IdealOutcome(SwappedCells(i), SWAPPED[i..]) == Some([IntV(7), IntV(7)])
    decreases 9 - i
  {
    if i < 9 {
      hide IdealStep, IdealAllowed, Sound, SwappedCells;
      SwappedCellsStep(i);
      SwappedCellsFrom(i + 1);
      assert SWAPPED[i..][0] == SWAPPED[i] && SWAPPED[i..][1..] == SWAPPED[i + 1..];
    }
  }

  /** The third capture does not find the first one, and after the return they differ. */
  lemma OrderMatters()
    ensures Formed(FIRST) && Grouped(FIRST) && Possible(FIRST, SWAPPED)
    ensures Outcome(FIRST, SWAPPED) == [IntV(7), NullV]
    ensures IdealOutcome(IDEAL_FIRST, SWAPPED) == Some([IntV(7), IntV(7)])
  {
    hide Formed, Grouped, Possible, Outcome, IdealOutcome;
    FirstAgrees();
    assert SWAPPED[0..] == SWAPPED;
    SwappedFrom(0);
    SwappedCellsFrom(0);
  }
}
