/** Captured variables: closures hold upvalues, which point into the value stack while the
    frame of the variable lives and take its value over when the frame returns.  The
    reference gives every variable a cell of its own that is never moved. */
module Upvalues {
  import opened Syntax
  import opened Values

  /** An upvalue object; objects are known by their number. */
  datatype Up = Open(idx: nat) | Closed(value: Value)

  /** A frame: the index of its first variable and how many it has.  Above them are its
      operands; the function value of a call is directly below the callee's variables. */
  datatype Frame = Frame(base: nat, slots: nat)

  /** `open` lists the open upvalues in the order of their creation; `handles` are the
      captures that closures hold. */
  datatype State = State(stack: seq<Value>, frames: seq<Frame>, memory: seq<Up>, open: seq<nat>, handles: seq<nat>)

  datatype Action =
    | Push(v: Value)
    | Drop
    | Enter(args: nat, locals: nat)
    | GetLocal(slot: nat)
    | SetLocal(slot: nat)
    | Capture(slot: nat)
    | GetUp(handle: nat)
    | SetUp(handle: nat)
    | Leave

  function Last(st: State): Frame
    requires st.frames != []
  {
    st.frames[|st.frames| - 1]
  }

  /** Where the operands of a frame end. */
  function EndOf(st: State, f: nat): int
    requires f < |st.frames|
  {
    if f == |st.frames| - 1 then |st.stack| else st.frames[f + 1].base - 1
  }

  ghost predicate Laid(st: State) {
    && st.frames != []
    && (forall f, g :: 0 <= f < g < |st.frames| ==> st.frames[f].base + st.frames[f].slots < st.frames[g].base)
    && Last(st).base + Last(st).slots <= |st.stack|
  }

  function Operands(st: State): int
    requires st.frames != []
  {
    |st.stack| - Last(st).base - Last(st).slots
  }

  /** Actions that make sense: variables and captures exist, operands are there. */
  ghost predicate Allowed(st: State, a: Action)
    requires st.frames != []
  {
    match a
    case Push(_) => true
    case Drop => Operands(st) > 0
    case Enter(args, _) => Operands(st) > args
    case GetLocal(slot) => slot < Last(st).slots
    case SetLocal(slot) => slot < Last(st).slots && Operands(st) > 0
    case Capture(slot) => slot < Last(st).slots
    case GetUp(handle) => handle < |st.handles|
    case SetUp(handle) => handle < |st.handles| && Operands(st) > 0
    case Leave => |st.frames| > 1 && Operands(st) > 0
  }

  function IdxOf(st: State, u: nat): nat
    requires u < |st.memory| && st.memory[u].Open?
  {
    st.memory[u].idx
  }

  /** The list of open upvalues names the open objects, each once. */
  ghost predicate Listed(st: State) {
    && (forall i, j :: 0 <= i < j < |st.open| ==> st.open[i] != st.open[j])
    && (forall i :: 0 <= i < |st.open| ==> st.open[i] < |st.memory| && st.memory[st.open[i]].Open?)
    && (forall u :: 0 <= u < |st.memory| && st.memory[u].Open? ==> u in st.open)
    && (forall k :: 0 <= k < |st.handles| ==> st.handles[k] < |st.memory|)
  }

  predicate IsSlot(st: State, f: nat, idx: nat)
    requires f < |st.frames|
  {
    st.frames[f].base <= idx < st.frames[f].base + st.frames[f].slots
  }

  /** Every open upvalue points to a variable of a frame. */
  ghost predicate Pointing(st: State) {
    forall u :: 0 <= u < |st.memory| && st.memory[u].Open? ==> exists f :: 0 <= f < |st.frames| && IsSlot(st, f, st.memory[u].idx)
  }

  ghost predicate Formed(st: State) {
    Laid(st) && Listed(st) && Pointing(st)
  }

  /** The open list is grouped by frame: behind an entry of some frame there are only
      entries of that frame and of the frames it has called. */
  ghost predicate Grouped(st: State)
    requires Listed(st)
  {
    forall f, i, j :: 0 <= f < |st.frames| && 0 <= i < j < |st.open| && IdxOf(st, st.open[i]) >= st.frames[f].base
                      ==> IdxOf(st, st.open[j]) >= st.frames[f].base
  }

  // ----- what the virtual machine does -----

  function Load(st: State, u: nat): Value
    requires Formed(st) && u < |st.memory|
  {
    match st.memory[u]
    case Open(idx) =>
      PointsInside(st, u);
      st.stack[idx]
    case Closed(v) => v
  }

  function Stored(st: State, u: nat, v: Value): State
    requires Formed(st) && u < |st.memory|
  {
    match st.memory[u]
    case Open(idx) =>
      PointsInside(st, u);
      st.(stack := st.stack[idx := v])
    case Closed(_) => st.(memory := st.memory[u := Closed(v)])
  }

  lemma PointsInside(st: State, u: nat)
    requires Laid(st) && Pointing(st) && u < |st.memory| && st.memory[u].Open?
    ensures st.memory[u].idx < |st.stack|
  {
    var f :| 0 <= f < |st.frames| && IsSlot(st, f, st.memory[u].idx);
    assert f < |st.frames| - 1 ==> st.frames[f].base + st.frames[f].slots < st.frames[|st.frames| - 1].base;
  }

  ghost predicate AllOpen(memory: seq<Up>, open: seq<nat>) {
    forall i :: 0 <= i < |open| ==> open[i] < |memory| && memory[open[i]].Open?
  }

  /** The search for an open upvalue goes backwards and stops at a smaller index. */
  function Find(memory: seq<Up>, open: seq<nat>, idx: nat): (r: Option<nat>)
    requires AllOpen(memory, open)
    ensures r.Some? ==> r.value in open && r.value < |memory| && memory[r.value] == Open(idx)
  {
    if open == [] then None
    else
      var u := open[|open| - 1];
      if memory[u].idx < idx then None
      else if memory[u].idx == idx then Some(u)
      else Find(memory, open[..|open| - 1], idx)
  }

  /** `OP_BIND_LOCAL`: the variable is captured once more. */
  function Captured(st: State, slot: nat): State
    requires Formed(st) && slot < Last(st).slots
  {
    var idx := Last(st).base + slot;
    match Find(st.memory, st.open, idx)
    case Some(u) => st.(handles := st.handles + [u])
    case None =>
      var u := |st.memory|;
      st.(memory := st.memory + [Open(idx)], open := st.open + [u], handles := st.handles + [u])
  }

  /** How many entries stay open: closing goes backwards and stops below `limit`. */
  function StayOpen(memory: seq<Up>, open: seq<nat>, limit: nat): (n: nat)
    requires AllOpen(memory, open)
    ensures n <= |open|
    ensures forall i :: n <= i < |open| ==> memory[open[i]].idx >= limit
    ensures n > 0 ==> memory[open[n - 1]].idx < limit
  {
    if open == [] then 0
    else if memory[open[|open| - 1]].idx < limit then |open|
    else StayOpen(memory, open[..|open| - 1], limit)
  }

  /** The objects after the entries from `n` on have taken their values over. */
  function ClosedFrom(st: State, n: nat): seq<Up>
    requires Formed(st) && n <= |st.open|
  {
    seq(|st.memory|, u requires 0 <= u < |st.memory| =>
      if u in st.open[n..] then Closed(Load(st, u)) else st.memory[u])
  }

  /** `OP_RETURN`. */
  function Left(st: State): State
    requires Formed(st) && |st.frames| > 1 && Operands(st) > 0
  {
    assert st.frames[0].base < st.frames[|st.frames| - 1].base;
    var bp := Last(st).base - 1;
    var n := StayOpen(st.memory, st.open, bp);
    State(st.stack[..bp] + [st.stack[|st.stack| - 1]], st.frames[..|st.frames| - 1], ClosedFrom(st, n), st.open[..n], st.handles)
  }

  function Entered(st: State, args: nat, locals: nat): State
    requires Laid(st) && Operands(st) > args
  {
    st.(stack := st.stack + seq(locals, _ => NullV), frames := st.frames + [Frame(|st.stack| - args, args + locals)])
  }

  function Step(st: State, a: Action): State
    requires Formed(st) && Allowed(st, a)
  {
    match a
    case Push(v) => st.(stack := st.stack + [v])
    case Drop => st.(stack := st.stack[..|st.stack| - 1])
    case Enter(args, locals) => Entered(st, args, locals)
    case GetLocal(slot) => st.(stack := st.stack + [st.stack[Last(st).base + slot]])
    case SetLocal(slot) => st.(stack := st.stack[Last(st).base + slot := st.stack[|st.stack| - 1]])
    case Capture(slot) => Captured(st, slot)
    case GetUp(handle) => st.(stack := st.stack + [Load(st, st.handles[handle])])
    case SetUp(handle) => Stored(st, st.handles[handle], st.stack[|st.stack| - 1])
    case Leave => Left(st)
  }

  // ----- the open list -----

  function Kept(st: State): (n: nat)
    requires Formed(st) && |st.frames| > 1
    ensures n <= |st.open|
  {
    assert st.frames[0].base < st.frames[|st.frames| - 1].base;
    StayOpen(st.memory, st.open, Last(st).base - 1)
  }

  lemma GroupedAt(st: State, f: nat, i: nat, j: nat)
    requires Listed(st) && Grouped(st) && f < |st.frames| && i < j < |st.open|
    ensures IdxOf(st, st.open[i]) >= st.frames[f].base ==> IdxOf(st, st.open[j]) >= st.frames[f].base
  {
  }

  /** The backward scan finds the border between the frame that ends and the others. */
  lemma LeaveSplits(st: State)
    requires Formed(st) && Grouped(st) && |st.frames| > 1
    ensures forall i :: 0 <= i < |st.open| ==> (IdxOf(st, st.open[i]) >= Last(st).base <==> i >= Kept(st))
  {
    assert st.frames[0].base < st.frames[|st.frames| - 1].base;
    var n, base := Kept(st), Last(st).base;
    forall i | 0 <= i < |st.open|
      ensures IdxOf(st, st.open[i]) >= base <==> i >= n
    {
      NotFunction(st, st.open[i]);
      if i + 1 < n {
        GroupedAt(st, |st.frames| - 1, i, n - 1);
      }
    }
  }

  lemma Tail(open: seq<nat>, n: nat, u: nat)
    requires n <= |open|
    ensures u in open[n..] <==> exists i :: n <= i < |open| && open[i] == u
    ensures u in open[..n] <==> exists i :: 0 <= i < n && open[i] == u
  {
    assert forall i :: n <= i < |open| ==> open[n..][i - n] == open[i];
  }

  /** Returning closes exactly the upvalues of the frame that ends, and exactly the others
      stay in the list. */
  lemma LeaveClosesExactly(st: State, u: nat)
    requires Formed(st) && Grouped(st) && |st.frames| > 1 && Operands(st) > 0 && u < |st.memory|
    ensures Left(st).memory[u] ==
            if st.memory[u].Open? && st.memory[u].idx >= Last(st).base then Closed(Load(st, u)) else st.memory[u]
    ensures u in Left(st).open <==> st.memory[u].Open? && st.memory[u].idx < Last(st).base
  {
    hide Grouped, Laid, Pointing, StayOpen;
    LeaveSplits(st);
    Tail(st.open, Kept(st), u);
    if st.memory[u].Open? {
      var i :| 0 <= i < |st.open| && st.open[i] == u;
    }
  }

  /** No upvalue points to a function value. */
  lemma NotFunction(st: State, u: nat)
    requires Formed(st) && |st.frames| > 1 && u < |st.memory| && st.memory[u].Open?
    ensures st.memory[u].idx != Last(st).base - 1
  {
    var f :| 0 <= f < |st.frames| && IsSlot(st, f, st.memory[u].idx);
    assert f < |st.frames| - 1 ==> st.frames[f].base + st.frames[f].slots < st.frames[|st.frames| - 1].base;
  }

  // ----- what every action keeps -----

  lemma PlainKeeps(st: State, a: Action)
    requires Formed(st) && Grouped(st) && Allowed(st, a) && !a.Enter? && !a.Capture? && !a.Leave?
    ensures Formed(Step(st, a)) && Grouped(Step(st, a))
  {
    PlainParts(st, a);
    PlainFormed(st, Step(st, a));
  }

  /** What actions within a frame leave alone. */
  lemma PlainParts(st: State, a: Action)
    requires Formed(st) && Allowed(st, a) && !a.Enter? && !a.Capture? && !a.Leave?
    ensures var st1 := Step(st, a);
            && st1.frames == st.frames && st1.open == st.open && st1.handles == st.handles && |st1.memory| == |st.memory|
            && Last(st).base + Last(st).slots <= |st1.stack|
            && forall u :: 0 <= u < |st.memory| && (st.memory[u].Open? || st1.memory[u].Open?) ==> st1.memory[u] == st.memory[u]
  {
    if a.SetUp? && st.memory[st.handles[a.handle]].Open? {
      PointsInside(st, st.handles[a.handle]);
    }
  }

  lemma PlainFormed(st: State, st1: State)
    requires Formed(st) && Grouped(st)
    requires st1.frames == st.frames && st1.open == st.open && st1.handles == st.handles && |st1.memory| == |st.memory|
    requires Last(st).base + Last(st).slots <= |st1.stack|
    requires forall u :: 0 <= u < |st.memory| && (st.memory[u].Open? || st1.memory[u].Open?) ==> st1.memory[u] == st.memory[u]
    ensures Formed(st1) && Grouped(st1)
  {
    assert Laid(st1);
    forall u | 0 <= u < |st1.memory| && st1.memory[u].Open?
      ensures exists f :: 0 <= f < |st1.frames| && IsSlot(st1, f, st1.memory[u].idx)
    {
      var f :| 0 <= f < |st.frames| && IsSlot(st, f, st.memory[u].idx);
      assert IsSlot(st1, f, st1.memory[u].idx);
    }
  }

  lemma EnterKeeps(st: State, args: nat, locals: nat)
    requires Formed(st) && Grouped(st) && Operands(st) > args
    ensures Formed(Entered(st, args, locals)) && Grouped(Entered(st, args, locals))
  {
    hide Laid, Pointing;
    EnterLaid(st, args, locals);
    EnterPointing(st, args, locals);
    var st1, n := Entered(st, args, locals), |st.frames|;
    forall f, i, j | 0 <= f < |st1.frames| && 0 <= i < j < |st1.open| && IdxOf(st1, st1.open[i]) >= st1.frames[f].base
      ensures IdxOf(st1, st1.open[j]) >= st1.frames[f].base
    {
      if f == n {
        NotAbove(st, st.open[i]);
      }
    }
  }

  lemma EnterLaid(st: State, args: nat, locals: nat)
    requires Laid(st) && Operands(st) > args
    ensures Laid(Entered(st, args, locals))
  {
    var st1, n := Entered(st, args, locals), |st.frames|;
    forall f, g | 0 <= f < g < |st1.frames|
      ensures st1.frames[f].base + st1.frames[f].slots < st1.frames[g].base
    {
      if g == n && f < n - 1 {
        assert st.frames[f].base + st.frames[f].slots < st.frames[n - 1].base;
      }
    }
  }

  lemma EnterPointing(st: State, args: nat, locals: nat)
    requires Laid(st) && Operands(st) > args && Pointing(st)
    ensures Pointing(Entered(st, args, locals))
  {
    hide Laid;
    var st1 := Entered(st, args, locals);
    forall u | 0 <= u < |st1.memory| && st1.memory[u].Open?
      ensures exists f :: 0 <= f < |st1.frames| && IsSlot(st1, f, st1.memory[u].idx)
    {
      var f :| 0 <= f < |st.frames| && IsSlot(st, f, st.memory[u].idx);
      assert IsSlot(st1, f, st1.memory[u].idx);
    }
  }

  /** Open upvalues point below the operands. */
  lemma NotAbove(st: State, u: nat)
    requires Formed(st) && u < |st.memory| && st.memory[u].Open?
    ensures st.memory[u].idx < Last(st).base + Last(st).slots
  {
    var f :| 0 <= f < |st.frames| && IsSlot(st, f, st.memory[u].idx);
    assert f < |st.frames| - 1 ==> st.frames[f].base + st.frames[f].slots < st.frames[|st.frames| - 1].base;
  }

  lemma CaptureKeeps(st: State, slot: nat)
    requires Formed(st) && Grouped(st) && slot < Last(st).slots
    ensures Formed(Captured(st, slot)) && Grouped(Captured(st, slot))
  {
    hide Find;
    var st1 := Captured(st, slot);
    var idx := Last(st).base + slot;
    assert IsSlot(st, |st.frames| - 1, idx);
    if Find(st.memory, st.open, idx).None? {
      NewUpvalue(st, idx);
    } else {
      SameUpvalues(st, st1);
    }
  }

  lemma SameUpvalues(st: State, st1: State)
    requires Formed(st) && Grouped(st) && st1 == st.(handles := st1.handles)
    requires forall k :: 0 <= k < |st1.handles| ==> st1.handles[k] < |st.memory|
    ensures Formed(st1) && Grouped(st1)
  {
    assert forall f, idx :: 0 <= f < |st.frames| ==> IsSlot(st1, f, idx) == IsSlot(st, f, idx);
  }

  lemma NewUpvalue(st: State, idx: nat)
    requires Formed(st) && Grouped(st) && IsSlot(st, |st.frames| - 1, idx)
    ensures var u := |st.memory|;
            var st1 := st.(memory := st.memory + [Open(idx)], open := st.open + [u], handles := st.handles + [u]);
            Formed(st1) && Grouped(st1)
  {
    var u0 := |st.memory|;
    var st1 := st.(memory := st.memory + [Open(idx)], open := st.open + [u0], handles := st.handles + [u0]);
    forall u | 0 <= u < |st1.memory| && st1.memory[u].Open?
      ensures exists f :: 0 <= f < |st1.frames| && IsSlot(st1, f, st1.memory[u].idx)
    {
      if u < u0 {
        var f :| 0 <= f < |st.frames| && IsSlot(st, f, st.memory[u].idx);
        assert IsSlot(st1, f, st1.memory[u].idx);
      } else {
        assert IsSlot(st1, |st.frames| - 1, idx);
      }
    }
    NewListed(st, st1, idx);
    forall f, i, j | 0 <= f < |st1.frames| && 0 <= i < j < |st1.open| && IdxOf(st1, st1.open[i]) >= st1.frames[f].base
      ensures IdxOf(st1, st1.open[j]) >= st1.frames[f].base
    {
      if j == |st.open| && f < |st.frames| - 1 {
        assert st.frames[f].base + st.frames[f].slots < st.frames[|st.frames| - 1].base;
      }
    }
  }

  lemma NewListed(st: State, st1: State, idx: nat)
    requires Listed(st)
    requires st1 == st.(memory := st.memory + [Open(idx)], open := st.open + [|st.memory|], handles := st.handles + [|st.memory|])
    ensures Listed(st1)
  {
    forall u | 0 <= u < |st1.memory| && st1.memory[u].Open?
      ensures u in st1.open
    {
      if u < |st.memory| {
        assert u in st.open;
      } else {
        assert st1.open[|st.open|] == u;
      }
    }
  }

  lemma LeaveKeeps(st: State)
    requires Formed(st) && Grouped(st) && |st.frames| > 1 && Operands(st) > 0
    ensures Formed(Left(st)) && Grouped(Left(st))
  {
    hide Left, Listed, Pointing, Laid, Grouped;
    LeaveLaid(st);
    LeaveListed(st);
    LeavePointing(st);
    LeaveGrouped(st);
  }

  lemma LeaveMemory(st: State, u: nat)
    requires Formed(st) && Grouped(st) && |st.frames| > 1 && Operands(st) > 0 && u < |st.memory|
    ensures |Left(st).memory| == |st.memory|
    ensures Left(st).memory[u].Open? ==> Left(st).memory[u] == st.memory[u] && st.memory[u].idx < Last(st).base
    ensures Left(st).memory[u].Open? <==> u in Left(st).open
  {
    hide Left, Laid, Pointing, Grouped;
    LeftParts(st);
    LeaveClosesExactly(st, u);
  }

  lemma LeaveListed(st: State)
    requires Formed(st) && Grouped(st) && |st.frames| > 1 && Operands(st) > 0
    ensures Listed(Left(st))
  {
    hide Left, Laid, Pointing, Grouped;
    LeftParts(st);
    var st1 := Left(st);
    forall u | 0 <= u < |st.memory|
      ensures st1.memory[u].Open? <==> u in st1.open
    {
      LeaveMemory(st, u);
    }
    forall i | 0 <= i < |st1.open|
      ensures st1.open[i] == st.open[i] && st1.open[i] in st1.open
    {
    }
  }

  lemma LeavePointing(st: State)
    requires Formed(st) && Grouped(st) && |st.frames| > 1 && Operands(st) > 0
    ensures Pointing(Left(st))
  {
    hide Left, Laid, Grouped, Listed;
    LeftParts(st);
    var st1 := Left(st);
    forall u | 0 <= u < |st1.memory| && st1.memory[u].Open?
      ensures exists f :: 0 <= f < |st1.frames| && IsSlot(st1, f, st1.memory[u].idx)
    {
      LeaveMemory(st, u);
      var f :| 0 <= f < |st.frames| && IsSlot(st, f, st.memory[u].idx);
      assert IsSlot(st1, f, st1.memory[u].idx);
    }
  }

  lemma LeaveGrouped(st: State)
    requires Formed(st) && Grouped(st) && |st.frames| > 1 && Operands(st) > 0
    ensures Listed(Left(st)) && Grouped(Left(st))
  {
    hide Left, Laid, Pointing;
    LeftParts(st);
    LeaveListed(st);
    var st1 := Left(st);
    forall i | 0 <= i < |st1.open|
      ensures st1.open[i] == st.open[i] && IdxOf(st1, st1.open[i]) == IdxOf(st, st.open[i])
    {
      LeaveMemory(st, st1.open[i]);
    }
  }

  lemma LeftParts(st: State)
    requires Formed(st) && |st.frames| > 1 && Operands(st) > 0
    ensures var st1 := Left(st);
            && st1.frames == st.frames[..|st.frames| - 1] && st1.handles == st.handles
            && st1.open == st.open[..Kept(st)] && |st1.memory| == |st.memory|
            && Last(st).base > 0 && st1.stack == st.stack[..Last(st).base - 1] + [st.stack[|st.stack| - 1]]
  {
    assert st.frames[0].base < st.frames[|st.frames| - 1].base;
  }

  lemma LeaveLaid(st: State)
    requires Formed(st) && |st.frames| > 1 && Operands(st) > 0
    ensures Laid(Left(st))
  {
    hide Listed, Pointing;
    LeftParts(st);
    var m := |st.frames| - 1;
    assert st.frames[m - 1].base + st.frames[m - 1].slots < st.frames[m].base;
  }

  /** Whatever is captured in whatever order, the open list stays well formed and grouped
      by frame. */
  lemma StepKeeps(st: State, a: Action)
    requires Formed(st) && Grouped(st) && Allowed(st, a)
    ensures Formed(Step(st, a)) && Grouped(Step(st, a))
  {
    hide Formed, Grouped, Captured, Entered, Left, Stored, Load;
    match a
    case Enter(args, locals) => EnterKeeps(st, args, locals);
    case Capture(slot) => CaptureKeeps(st, slot);
    case Leave => LeaveKeeps(st);
    case _ => PlainKeeps(st, a);
  }

  // ----- the virtual machine's own loops -----

  /** When the entries from `i` on are closed, the one before is still open. */
  lemma StillOpen(st: State, i: nat)
    requires Formed(st) && 0 < i <= |st.open|
    ensures st.open[i - 1] < |st.memory| == |ClosedFrom(st, i)|
    ensures ClosedFrom(st, i)[st.open[i - 1]] == st.memory[st.open[i - 1]]
    ensures st.memory[st.open[i - 1]].Open?
    ensures ClosedFrom(st, i - 1) == ClosedFrom(st, i)[st.open[i - 1] := Closed(Load(st, st.open[i - 1]))]
  {
    hide Laid, Pointing;
    var u0 := st.open[i - 1];
    forall u | 0 <= u < |st.memory|
      ensures u in st.open[i - 1..] <==> u == u0 || u in st.open[i..]
      ensures u in st.open[i..] ==> u != u0
    {
      Tail(st.open, i, u);
      Tail(st.open, i - 1, u);
    }
  }

  lemma FormedIs(st: State)
    requires Formed(st)
    ensures Laid(st) && Listed(st) && Pointing(st) && AllOpen(st.memory, st.open)
  {
  }

  lemma StayNext(memory: seq<Up>, open: seq<nat>, i: nat, limit: nat)
    requires AllOpen(memory, open) && i <= |open|
    ensures AllOpen(memory, open[..i])
    ensures i == 0 ==> StayOpen(memory, open[..i], limit) == 0
    ensures i > 0 && memory[open[i - 1]].idx < limit ==> StayOpen(memory, open[..i], limit) == i
    ensures i > 0 && memory[open[i - 1]].idx >= limit ==>
              AllOpen(memory, open[..i - 1]) && StayOpen(memory, open[..i], limit) == StayOpen(memory, open[..i - 1], limit)
  {
    if i > 0 {
      assert open[..i][..i - 1] == open[..i - 1];
    }
  }

  lemma NothingClosed(st: State)
    requires Formed(st)
    ensures ClosedFrom(st, |st.open|) == st.memory
  {
  }

  lemma LoadIs(st: State, u: nat)
    requires Formed(st) && u < |st.memory| && st.memory[u].Open?
    ensures st.memory[u].idx < |st.stack| && Load(st, u) == st.stack[st.memory[u].idx]
  {
    PointsInside(st, u);
  }

  class UpvalueList {
    var stack: seq<Value>
    var frames: seq<Frame>
    var memory: seq<Up>
    var open: seq<nat>
    var handles: seq<nat>

    function View(): State
      reads this
    {
      State(stack, frames, memory, open, handles)
    }

    constructor ()
      ensures View() == State([], [Frame(0, 0)], [], [], [])
    {
      stack, frames, memory, open, handles := [], [Frame(0, 0)], [], [], [];
    }

    method LoadUpvalue(u: nat) returns (v: Value)
      requires Formed(View()) && u < |memory|
      ensures v == Load(View(), u)
    {
      match memory[u]
      case Closed(value) => v := value;
      case Open(idx) =>
        PointsInside(View(), u);
        v := stack[idx];
    }

    method StoreUpvalue(u: nat, v: Value)
      requires Formed(View()) && u < |memory|
      modifies this
      ensures View() == Stored(old(View()), u, v)
    {
      match memory[u]
      case Closed(_) => memory := memory[u := Closed(v)];
      case Open(idx) =>
        PointsInside(View(), u);
        stack := stack[idx := v];
    }

    /** From the newest entry backwards, until the index is found or passed. */
    method FindOpen(idx: nat) returns (found: Option<nat>)
      requires AllOpen(memory, open)
      ensures found == Find(memory, open, idx)
    {
      var i := |open|;
      assert open[..i] == open;
      while i > 0 && memory[open[i - 1]].idx >= idx
        invariant 0 <= i <= |open| && Find(memory, open, idx) == Find(memory, open[..i], idx)
      {
        if memory[open[i - 1]].idx == idx {
          return Some(open[i - 1]);
        }
        assert open[..i][..i - 1] == open[..i - 1];
        i := i - 1;
      }
      return None;
    }

    method BindLocal(slot: nat)
      requires Formed(View()) && slot < Last(View()).slots
      modifies this
      ensures View() == Captured(old(View()), slot)
    {
      hide Find, Listed, Laid, Pointing;
      FormedIs(View());
      var found := FindOpen(frames[|frames| - 1].base + slot);
      match found
      case Some(u) => handles := handles + [u];
      case None =>
        var idx := frames[|frames| - 1].base + slot;
        memory, open, handles := memory + [Open(idx)], open + [|memory|], handles + [|memory|];
    }

    /** Closes from the newest entry backwards, until one points below `bp`. */
    method CloseFrom(bp: nat)
      requires Formed(View())
      modifies this
      ensures var st := old(View());
              var n := StayOpen(st.memory, st.open, bp);
              View() == st.(memory := ClosedFrom(st, n), open := st.open[..n])
    {
      hide Formed, Listed, Laid, Pointing, ClosedFrom, Load, StayOpen, AllOpen;
      ghost var st := View();
      FormedIs(st);
      var i := |open|;
      NothingClosed(st);
      assert open[..i] == open;
      while i > 0 && (StillOpen(st, i); memory[open[i - 1]].idx >= bp)
        invariant 0 <= i <= |open| && View() == st.(memory := memory)
        invariant memory == ClosedFrom(st, i)
        invariant AllOpen(st.memory, st.open[..i]) && StayOpen(st.memory, st.open, bp) == StayOpen(st.memory, st.open[..i], bp)
      {
        StillOpen(st, i);
        ghost var u := open[i - 1];
        LoadIs(st, u);
        StayNext(st.memory, st.open, i, bp);
        memory := memory[open[i - 1] := Closed(stack[memory[open[i - 1]].idx])];
        i := i - 1;
      }
      if i > 0 {
        StillOpen(st, i);
      }
      StayNext(st.memory, st.open, i, bp);
      open := open[..i];
    }

    method Return()
      requires Formed(View()) && |frames| > 1 && Operands(View()) > 0
      modifies this
      ensures View() == Left(old(View()))
    {
      hide StayOpen, ClosedFrom, Listed, Pointing;
      assert frames[0].base < frames[|frames| - 1].base;
      var bp := frames[|frames| - 1].base - 1;
      var retval := stack[|stack| - 1];
      CloseFrom(bp);
      frames := frames[..|frames| - 1];
      stack := stack[..bp] + [retval];
    }
  }
}
