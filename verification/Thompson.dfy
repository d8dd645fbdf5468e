/** The regular-expression engine: states that are linked and changed in place, the
    construction of an automaton from postfix notation, and the search that follows all
    possible states at once. */
module Thompson {
  import opened Syntax
  import opened Regex
  import opened Automaton
  import opened Frontier

  class NfaState {
    ghost const id: nat
    var isAccepting: bool
    var transition: map<char, NfaState>
    var epsilons: seq<NfaState>

    /** `create_state`. */
    constructor (isAccepting: bool, ghost id: nat)
      ensures this.isAccepting == isAccepting && transition == map[] && epsilons == [] && this.id == id
    {
      this.isAccepting, transition, epsilons := isAccepting, map[], [];
      this.id := id;
    }

    method AddEpsilon(to: NfaState)
      modifies this
      ensures isAccepting == old(isAccepting) && transition == old(transition) && epsilons == old(epsilons) + [to]
      ensures NodeOf(this) == old(NodeOf(this)).(eps := old(NodeOf(this)).eps + [to.id])
    {
      epsilons := epsilons + [to];
      assert NodeOf(this).eps == old(NodeOf(this)).eps + [to.id];
      assert NodeOf(this).moves == old(NodeOf(this)).moves;
    }

    method AddMove(symbol: char, to: NfaState)
      modifies this
      ensures isAccepting == old(isAccepting) && transition == old(transition)[symbol := to] && epsilons == old(epsilons)
      ensures NodeOf(this) == old(NodeOf(this)).(moves := old(NodeOf(this)).moves[symbol := to.id])
    {
      transition := transition[symbol := to];
      assert NodeOf(this).eps == old(NodeOf(this)).eps;
      assert NodeOf(this).moves == old(NodeOf(this)).moves[symbol := to.id];
    }

    method Reject()
      modifies this
      ensures !isAccepting && transition == old(transition) && epsilons == old(epsilons)
      ensures NodeOf(this) == old(NodeOf(this)).(accepting := false)
    {
      isAccepting := false;
      assert NodeOf(this).eps == old(NodeOf(this)).eps && NodeOf(this).moves == old(NodeOf(this)).moves;
    }
  }

  datatype Nfa = Nfa(start: NfaState, end: NfaState)

  /** States by number; the numbers are the identities of the objects. */
  type Heap = map<nat, NfaState>

  ghost predicate Numbered(h: Heap) {
    forall i :: i in h ==> h[i].id == i
  }

  /** Everything the states refer to is in the heap. */
  ghost predicate Whole(h: Heap)
    reads h.Values
  {
    forall i :: i in h ==>
      && (forall k :: 0 <= k < |h[i].epsilons| ==> Has(h, h[i].epsilons[k]))
      && (forall c :: c in h[i].transition ==> Has(h, h[i].transition[c]))
  }

  ghost predicate Has(h: Heap, s: NfaState) {
    s.id in h && h[s.id] == s
  }

  ghost function NodeOf(s: NfaState): Node
    reads s
  {
    Node(s.isAccepting, map c | c in s.transition :: s.transition[c].id, seq(|s.epsilons|, k requires 0 <= k < |s.epsilons| reads s => s.epsilons[k].id))
  }

  /** The automaton as a graph. */
  ghost function GraphOf(h: Heap): Graph
    reads h.Values
  {
    map i | i in h :: NodeOf(h[i])
  }

  /** The states numbered below `n`, and nothing outside them referred to. */
  ghost predicate Ok(h: Heap, n: nat)
    reads h.Values
  {
    (forall i: nat :: i in h <==> i < n) && Numbered(h) && Whole(h)
  }

  // ----- creating and linking states -----

  method CreateState(isAccepting: bool, ghost h: Heap, ghost n: nat) returns (s: NfaState, ghost h1: Heap)
    requires Ok(h, n)
    ensures fresh(s) && s.id == n && h1 == h[n := s] && Ok(h1, n + 1)
    ensures GraphOf(h1) == Put(GraphOf(h), n, isAccepting)
  {
    s := new NfaState(isAccepting, n);
    h1 := h[n := s];
    assert NodeOf(s).moves == map[] && NodeOf(s).eps == [];
  }

  /** Changing one state changes one node. */
  lemma OneChanged(h: Heap, g: Graph, s: NfaState)
    requires g.Keys == h.Keys && Numbered(h) && Has(h, s)
    requires forall i :: i in h && i != s.id ==> NodeOf(h[i]) == g[i]
    ensures GraphOf(h) == g[s.id := NodeOf(s)]
  {
    hide NodeOf;
  }

  method AddEpsilonTransition(from: NfaState, to: NfaState, ghost h: Heap, ghost n: nat)
    requires Ok(h, n) && Has(h, from) && Has(h, to)
    modifies from
    ensures Ok(h, n) && from.id in old(GraphOf(h)) && GraphOf(h) == Link(old(GraphOf(h)), from.id, to.id)
  {
    hide NodeOf;
    ghost var g := GraphOf(h);
    from.AddEpsilon(to);
    OneChanged(h, g, from);
  }

  method AddTransition(from: NfaState, to: NfaState, symbol: char, ghost h: Heap, ghost n: nat)
    requires Ok(h, n) && Has(h, from) && Has(h, to)
    modifies from
    ensures Ok(h, n) && from.id in old(GraphOf(h)) && GraphOf(h) == Move(old(GraphOf(h)), from.id, symbol, to.id)
  {
    hide NodeOf;
    ghost var g := GraphOf(h);
    from.AddMove(symbol, to);
    OneChanged(h, g, from);
  }

  method Reject(s: NfaState, ghost h: Heap, ghost n: nat)
    requires Ok(h, n) && Has(h, s)
    modifies s
    ensures Ok(h, n) && s.id in old(GraphOf(h)) && GraphOf(h) == Rejecting(old(GraphOf(h)), s.id)
  {
    hide NodeOf;
    ghost var g := GraphOf(h);
    s.Reject();
    OneChanged(h, g, s);
  }

  lemma GraphAt(h: Heap, i: nat)
    ensures i in GraphOf(h) <==> i in h
    ensures i in h ==> GraphOf(h)[i] == NodeOf(h[i])
  {
  }

  // ----- the constructions -----

  /** A state created later is another one. */
  lemma StillThere(h: Heap, n: nat, s: NfaState, x: NfaState)
    requires Ok(h, n) && Has(h, x)
    ensures Has(h[n := s], x) && x.id != n
  {
  }

  method FromEpsilon(ghost h: Heap, ghost n: nat) returns (nfa: Nfa, ghost h1: Heap)
    requires Ok(h, n)
    ensures Ok(h1, n + 2) && h1 == h[n := nfa.start][n + 1 := nfa.end] && fresh(nfa.start) && fresh(nfa.end)
    ensures nfa.start.id == n && nfa.end.id == n + 1
    ensures GraphOf(h1) == EmptyGraph(GraphOf(h), n)
  {
    hide Whole, GraphOf, NodeOf;
    var start, end;
    start, h1 := CreateState(false, h, n);
    end, h1 := CreateState(true, h1, n + 1);
    AddEpsilonTransition(start, end, h1, n + 2);
    nfa := Nfa(start, end);
  }

  method FromSymbol(symbol: char, ghost h: Heap, ghost n: nat) returns (nfa: Nfa, ghost h1: Heap)
    requires Ok(h, n)
    ensures Ok(h1, n + 2) && h1 == h[n := nfa.start][n + 1 := nfa.end] && fresh(nfa.start) && fresh(nfa.end)
    ensures nfa.start.id == n && nfa.end.id == n + 1
    ensures GraphOf(h1) == SymbolGraph(GraphOf(h), n, symbol)
  {
    hide Whole, GraphOf, NodeOf;
    var start, end;
    start, h1 := CreateState(false, h, n);
    end, h1 := CreateState(true, h1, n + 1);
    AddTransition(start, end, symbol, h1, n + 2);
    nfa := Nfa(start, end);
  }

  ghost predicate HasBoth(h: Heap, nfa: Nfa) { Has(h, nfa.start) && Has(h, nfa.end) }

  method Concat(first: Nfa, second: Nfa, ghost h: Heap, ghost n: nat) returns (nfa: Nfa)
    requires Ok(h, n) && HasBoth(h, first) && HasBoth(h, second)
    modifies first.end
    ensures Ok(h, n) && nfa == Nfa(first.start, second.end) && first.end.id in old(GraphOf(h))
    ensures GraphOf(h) == ConcatGraph(old(GraphOf(h)), first.end.id, second.start.id)
  {
    hide Whole, GraphOf, NodeOf;
    AddEpsilonTransition(first.end, second.start, h, n);
    Reject(first.end, h, n);
    nfa := Nfa(first.start, second.end);
  }

  lemma StillHere(h: Heap, n: nat, s: NfaState, nfa: Nfa)
    requires Ok(h, n) && HasBoth(h, nfa)
    ensures HasBoth(h[n := s], nfa)
  {
  }

  /** A new state with empty moves to two others. */
  method NewStart(first: NfaState, second: NfaState, ghost h: Heap, ghost n: nat) returns (start: NfaState)
    requires Ok(h, n) && Has(h, first) && Has(h, second)
    ensures fresh(start) && start.id == n && Ok(h[n := start], n + 1)
    ensures GraphOf(h[n := start]) == Link(Link(Put(GraphOf(h), n, false), n, first.id), n, second.id)
  {
    hide Ok, GraphOf, NodeOf;
    ghost var h1;
    start, h1 := CreateState(false, h, n);
    StillThere(h, n, start, first);
    StillThere(h, n, start, second);
    AddEpsilonTransition(start, first, h1, n + 1);
    AddEpsilonTransition(start, second, h1, n + 1);
  }

  method Union(first: Nfa, second: Nfa, ghost h: Heap, ghost n: nat) returns (nfa: Nfa, ghost h1: Heap)
    requires Ok(h, n) && HasBoth(h, first) && HasBoth(h, second)
    modifies first.end, second.end
    ensures Ok(h1, n + 2) && h1 == h[n := nfa.start][n + 1 := nfa.end] && fresh(nfa.start) && fresh(nfa.end)
    ensures nfa.start.id == n && nfa.end.id == n + 1
    ensures first.end.id in old(GraphOf(h)) && second.end.id in old(GraphOf(h))
    ensures GraphOf(h1) == UnionGraph(old(GraphOf(h)), n, first.start.id, first.end.id, second.start.id, second.end.id)
  {
    hide Ok, GraphOf, NodeOf, Put, Link, Rejecting;
    GraphAt(h, first.end.id);
    GraphAt(h, second.end.id);
    var start := NewStart(first.start, second.start, h, n);
    StillHere(h, n, start, first);
    StillHere(h, n, start, second);
    var end;
    end, h1 := CreateState(true, h[n := start], n + 1);
    StillHere(h[n := start], n + 1, end, first);
    StillHere(h[n := start], n + 1, end, second);
    AddEpsilonTransition(first.end, end, h1, n + 2);
    AddEpsilonTransition(second.end, end, h1, n + 2);
    Reject(first.end, h1, n + 2);
    Reject(second.end, h1, n + 2);
    nfa := Nfa(start, end);
  }

  method NewEnds(ghost h: Heap, ghost n: nat) returns (start: NfaState, end: NfaState, ghost h1: Heap)
    requires Ok(h, n)
    ensures h1 == h[n := start][n + 1 := end] && fresh(start) && fresh(end) && start.id == n && end.id == n + 1
    ensures Ok(h1, n + 2) && GraphOf(h1) == Put(Put(GraphOf(h), n, false), n + 1, true)
    ensures forall x: NfaState :: Has(h, x) ==> Has(h1, x)
  {
    hide Whole, GraphOf, NodeOf;
    start, h1 := CreateState(false, h, n);
    end, h1 := CreateState(true, h1, n + 1);
  }

  method Closure(inner: Nfa, ghost h: Heap, ghost n: nat) returns (nfa: Nfa, ghost h1: Heap)
    requires Ok(h, n) && HasBoth(h, inner)
    modifies inner.end
    ensures Ok(h1, n + 2) && h1 == h[n := nfa.start][n + 1 := nfa.end] && fresh(nfa.start) && fresh(nfa.end)
    ensures nfa.start.id == n && nfa.end.id == n + 1
    ensures inner.end.id in old(GraphOf(h)) && GraphOf(h1) == ClosureGraph(old(GraphOf(h)), n, inner.start.id, inner.end.id)
  {
    hide Ok, GraphOf, NodeOf, Put, Link, Rejecting;
    GraphAt(h, inner.end.id);
    var start, end;
    start, end, h1 := NewEnds(h, n);
    AddEpsilonTransition(start, end, h1, n + 2);
    AddEpsilonTransition(start, inner.start, h1, n + 2);
    AddEpsilonTransition(inner.end, end, h1, n + 2);
    AddEpsilonTransition(inner.end, inner.start, h1, n + 2);
    Reject(inner.end, h1, n + 2);
    nfa := Nfa(start, end);
  }

  method Optional(inner: Nfa, ghost h: Heap, ghost n: nat) returns (nfa: Nfa, ghost h1: Heap)
    requires Ok(h, n) && HasBoth(h, inner)
    modifies inner.end
    ensures Ok(h1, n + 2) && h1 == h[n := nfa.start][n + 1 := nfa.end] && fresh(nfa.start) && fresh(nfa.end)
    ensures nfa.start.id == n && nfa.end.id == n + 1
    ensures inner.end.id in old(GraphOf(h)) && GraphOf(h1) == OptionalGraph(old(GraphOf(h)), n, inner.start.id, inner.end.id)
  {
    hide Ok, GraphOf, NodeOf, Put, Link, Rejecting;
    GraphAt(h, inner.end.id);
    var start, end;
    start, end, h1 := NewEnds(h, n);
    AddEpsilonTransition(start, end, h1, n + 2);
    AddEpsilonTransition(start, inner.start, h1, n + 2);
    AddEpsilonTransition(inner.end, end, h1, n + 2);
    Reject(inner.end, h1, n + 2);
    nfa := Nfa(start, end);
  }

  method OneOrMore(inner: Nfa, ghost h: Heap, ghost n: nat) returns (nfa: Nfa, ghost h1: Heap)
    requires Ok(h, n) && HasBoth(h, inner)
    modifies inner.end
    ensures Ok(h1, n + 2) && h1 == h[n := nfa.start][n + 1 := nfa.end] && fresh(nfa.start) && fresh(nfa.end)
    ensures nfa.start.id == n && nfa.end.id == n + 1
    ensures inner.end.id in old(GraphOf(h)) && GraphOf(h1) == OneOrMoreGraph(old(GraphOf(h)), n, inner.start.id, inner.end.id)
  {
    hide Ok, GraphOf, NodeOf, Put, Link, Rejecting;
    GraphAt(h, inner.end.id);
    var start, end;
    start, end, h1 := NewEnds(h, n);
    AddEpsilonTransition(start, inner.start, h1, n + 2);
    AddEpsilonTransition(inner.end, end, h1, n + 2);
    AddEpsilonTransition(inner.end, inner.start, h1, n + 2);
    Reject(inner.end, h1, n + 2);
    nfa := Nfa(start, end);
  }

  // ----- from postfix notation -----

  /** The automata on the stack are where `parts` says. */
  ghost predicate Builds(h: Heap, n: nat, stack: seq<Nfa>, parts: seq<Part>)
    reads h.Values
  {
    && Ok(h, n) && |stack| == |parts| && Stacked(GraphOf(h), parts)
    && forall i :: 0 <= i < |stack| ==>
         HasBoth(h, stack[i]) && stack[i].start.id == parts[i].start && stack[i].end.id == parts[i].end
  }

  /** `*`, `?` and `+`. */
  method Repeat(token: char, stack: seq<Nfa>, ghost h: Heap, ghost n: nat, ghost parts: seq<Part>)
    returns (stack1: seq<Nfa>, ghost h1: Heap, ghost parts1: seq<Part>)
    requires Builds(h, n, stack, parts) && |stack| >= 1 && token in ['*', '?', '+']
    modifies h.Values
    ensures Builds(h1, n + 2, stack1, parts1) && Apply(token, Trees(parts)) == Some(Trees(parts1))
    ensures forall i :: i in h1 ==> (i in h && h1[i] == h[i]) || fresh(h1[i])
  {
    hide Ok, GraphOf, NodeOf, Stacked, ClosureGraph, OptionalGraph, OneOrMoreGraph, Fragment;
    var k := |stack| - 1;
    ghost var g, top := GraphOf(h), parts[k];
    DenseGraph(h, n);
    PartAt(g, n, parts, k);
    var nfa;
    ghost var r;
    if token == '*' {
      nfa, h1 := Closure(stack[k], h, n);
      ClosureBuilt(g, n, top.states, top.start, top.end, top.r);
      r := Star(top.r);
    } else if token == '?' {
      nfa, h1 := Optional(stack[k], h, n);
      OptionalBuilt(g, n, top.states, top.start, top.end, top.r);
      r := Opt(top.r);
    } else {
      nfa, h1 := OneOrMore(stack[k], h, n);
      OneOrMoreBuilt(g, n, top.states, top.start, top.end, top.r);
      r := Plus(top.r);
    }
    ghost var p := Part(top.states + {n, n + 1}, r, n, n + 1);
    OthersApart(g, n, parts, k, k + 1, p.states);
    Restacked(g, GraphOf(h1), n, parts, k, p, {top.end});
    stack1, parts1 := stack[..k] + [nfa], parts[..k] + [p];
    DenseGraph(h1, n + 2);
    NewPlaces(h, n, nfa, stack, k);
    TreesTop(parts, k, p);
  }

  lemma DenseGraph(h: Heap, n: nat)
    requires Ok(h, n)
    ensures Dense(GraphOf(h), n) && Numbered(h) && forall i :: i in h ==> i < n
  {
  }

  lemma PartAt(g: Graph, n: nat, parts: seq<Part>, k: nat)
    requires Dense(g, n) && Stacked(g, parts) && k < |parts|
    ensures Fragment(g, parts[k].states, parts[k].start, parts[k].end, parts[k].r)
    ensures parts[k].end in parts[k].states && forall i :: i in parts[k].states ==> i < n
  {
  }

  /** What is below the `k`th automaton shares no state with those above and with new
      states. */
  lemma OthersApart(g: Graph, n: nat, parts: seq<Part>, k: nat, m: nat, states: set<nat>)
    requires Dense(g, n) && Stacked(g, parts) && k < m <= |parts|
    requires forall s :: s in states ==> s >= n || exists j :: k <= j < m && s in parts[j].states
    ensures forall i :: 0 <= i < k ==> parts[i].states !! states
    ensures forall i, j :: 0 <= i < k <= j < m ==> parts[j].end !in parts[i].states
  {
    hide Fragment;
    forall i | 0 <= i < k
      ensures parts[i].states !! states
    {
      InGraph(g, n, parts[i].states, parts[i].start, parts[i].end, parts[i].r);
    }
    forall i, j | 0 <= i < k <= j < m
      ensures parts[j].end !in parts[i].states
    {
      InGraph(g, n, parts[j].states, parts[j].start, parts[j].end, parts[j].r);
    }
  }

  /** Two new states leave the places of the others alone. */
  lemma NewPlaces(h: Heap, n: nat, nfa: Nfa, stack: seq<Nfa>, k: nat)
    requires k <= |stack| && forall i :: 0 <= i < |stack| ==> HasBoth(h, stack[i])
    requires forall i :: i in h ==> i < n
    requires nfa.start.id == n && nfa.end.id == n + 1
    ensures var h1 := h[n := nfa.start][n + 1 := nfa.end];
            HasBoth(h1, nfa) && forall i :: 0 <= i < k ==> HasBoth(h1, stack[i])
  {
  }

  lemma TreesTop(parts: seq<Part>, k: nat, p: Part)
    requires k <= |parts|
    ensures Trees(parts[..k] + [p]) == Trees(parts)[..k] + [p.r]
  {
  }

  /** `|` and `.`. */
  method Join(token: char, stack: seq<Nfa>, ghost h: Heap, ghost n: nat, ghost parts: seq<Part>)
    returns (stack1: seq<Nfa>, ghost h1: Heap, ghost n1: nat, ghost parts1: seq<Part>)
    requires Builds(h, n, stack, parts) && |stack| >= 2 && token in ['|', '.']
    modifies h.Values
    ensures Builds(h1, n1, stack1, parts1) && Apply(token, Trees(parts)) == Some(Trees(parts1))
    ensures forall i :: i in h1 ==> (i in h && h1[i] == h[i]) || fresh(h1[i])
  {
    hide Ok, GraphOf, NodeOf, Stacked, UnionGraph, ConcatGraph, Fragment;
    var k := |stack| - 2;
    ghost var g, left, right := GraphOf(h), parts[k], parts[k + 1];
    DenseGraph(h, n);
    PartAt(g, n, parts, k);
    PartAt(g, n, parts, k + 1);
    Apart(g, parts, k);
    var nfa;
    ghost var p;
    if token == '|' {
      nfa, h1 := Union(stack[k], stack[k + 1], h, n);
      n1 := n + 2;
      UnionBuilt(g, n, left.states, right.states, left.start, left.end, right.start, right.end, left.r, right.r);
      p := Part(left.states + right.states + {n, n + 1}, Alt(left.r, right.r), n, n + 1);
      DenseGraph(h1, n + 2);
      NewPlaces(h, n, nfa, stack, k);
    } else {
      nfa := Concat(stack[k], stack[k + 1], h, n);
      h1, n1 := h, n;
      ConcatBuilt(g, n, left.states, right.states, left.start, left.end, right.start, right.end, left.r, right.r);
      p := Part(left.states + right.states, Cat(left.r, right.r), left.start, right.end);
    }
    OthersApart(g, n, parts, k, k + 2, p.states);
    Restacked(g, GraphOf(h1), n, parts, k, p, {left.end, right.end});
    stack1, parts1 := stack[..k] + [nfa], parts[..k] + [p];
    TreesTop(parts, k, p);
  }

  lemma Apart(g: Graph, parts: seq<Part>, k: nat)
    requires Stacked(g, parts) && k + 1 < |parts|
    ensures parts[k].states !! parts[k + 1].states
  {
  }

  /** Any other character stands for itself. */
  method Symbol(token: char, stack: seq<Nfa>, ghost h: Heap, ghost n: nat, ghost parts: seq<Part>)
    returns (stack1: seq<Nfa>, ghost h1: Heap, ghost parts1: seq<Part>)
    requires Builds(h, n, stack, parts) && !IsOperator(token)
    ensures Builds(h1, n + 2, stack1, parts1) && Apply(token, Trees(parts)) == Some(Trees(parts1))
    ensures forall i :: i in h1 ==> (i in h && h1[i] == h[i]) || fresh(h1[i])
  {
    hide Ok, GraphOf, NodeOf, Stacked, SymbolGraph, Fragment;
    var k := |stack|;
    ghost var g := GraphOf(h);
    DenseGraph(h, n);
    var nfa;
    nfa, h1 := FromSymbol(token, h, n);
    SymbolBuilt(g, n, token);
    ghost var p := Part({n, n + 1}, Sym(token), n, n + 1);
    AllApart(g, n, parts, p.states);
    Restacked(g, GraphOf(h1), n, parts, k, p, {});
    stack1, parts1 := stack[..k] + [nfa], parts[..k] + [p];
    DenseGraph(h1, n + 2);
    NewPlaces(h, n, nfa, stack, k);
    TreesTop(parts, k, p);
    assert Trees(parts)[..k] == Trees(parts);
  }

  lemma AllApart(g: Graph, n: nat, parts: seq<Part>, states: set<nat>)
    requires Dense(g, n) && Stacked(g, parts) && forall s :: s in states ==> s >= n
    ensures forall i :: 0 <= i < |parts| ==> parts[i].states !! states
  {
    hide Fragment;
    forall i | 0 <= i < |parts|
      ensures parts[i].states !! states
    {
      InGraph(g, n, parts[i].states, parts[i].start, parts[i].end, parts[i].r);
    }
  }

  /** The expression a postfix text stands for, as the program takes it: the last one on
      the stack, and the empty pattern for the empty text. */
  function Meaning(p: string): Option<Regex> {
    if p == [] then Some(Nothing)
    else
      match Postfix(p, [])
      case None => None
      case Some(st) => if st == [] then None else Some(st[|st| - 1])
  }

  /** `to_nfa`: fails exactly when an operand is missing, and otherwise builds the
      automaton of the expression. */
  method ToNfa(p: string) returns (result: Option<Nfa>, ghost h: Heap, ghost n: nat, ghost part: Part)
    ensures result.None? <==> Meaning(p).None?
    ensures result.Some? ==>
              && Ok(h, n) && HasBoth(h, result.value) && Meaning(p) == Some(part.r)
              && Fragment(GraphOf(h), part.states, result.value.start.id, result.value.end.id, part.r)
    ensures forall i :: i in h ==> fresh(h[i])
  {
    hide Ok, GraphOf, Stacked, Fragment, Postfix;
    h, n, part := map[], 0, Part({}, Nothing, 0, 0);
    EmptyHeap();
    var stack: seq<Nfa> := [];
    if p == [] {
      var nfa;
      nfa, h := FromEpsilon(h, n);
      n := 2;
      EmptyBuilt(map[], 0);
      DenseGraph(h, n);
      part := Part({0, 1}, Nothing, 0, 1);
      return Some(nfa), h, n, part;
    }
    ghost var parts: seq<Part> := [];
    assert Trees(parts) == [];
    var i := 0;
    assert p[0..] == p;
    while i < |p|
      invariant i <= |p| && Builds(h, n, stack, parts) && (i > 0 ==> stack != [])
      invariant Postfix(p, []) == Postfix(p[i..], Trees(parts))
      invariant forall i :: i in h ==> fresh(h[i])
    {
      var token := p[i];
      PostfixStep(p[i..], Trees(parts));
      assert p[i..][1..] == p[i + 1..];
      if token in ['*', '?', '+'] {
        if |stack| < 1 {
          return None, h, n, part;
        }
        stack, h, parts := Repeat(token, stack, h, n, parts);
        n := n + 2;
      } else if token in ['|', '.'] {
        if |stack| < 2 {
          return None, h, n, part;
        }
        stack, h, n, parts := Join(token, stack, h, n, parts);
      } else {
        stack, h, parts := Symbol(token, stack, h, n, parts);
        n := n + 2;
      }
      i := i + 1;
    }
    assert p[i..] == [];
    PostfixEnd(Trees(parts));
    part := parts[|parts| - 1];
    LastPart(GraphOf(h), parts);
    result := Some(stack[|stack| - 1]);
  }

  lemma EmptyHeap()
    ensures Ok(map[], 0) && GraphOf(map[]) == map[] && Stacked(map[], [])
  {
  }

  lemma PostfixStep(p: string, st: seq<Regex>)
    requires p != []
    ensures Postfix(p, st) == (match Apply(p[0], st) case None => None case Some(st1) => Postfix(p[1..], st1))
  {
  }

  lemma PostfixEnd(st: seq<Regex>)
    ensures Postfix([], st) == Some(st)
  {
  }

  lemma LastPart(g: Graph, parts: seq<Part>)
    requires Stacked(g, parts) && parts != []
    ensures var p := parts[|parts| - 1]; Fragment(g, p.states, p.start, p.end, p.r)
  {
  }

  // ----- search -----

  /** A growable list of states. */
  class StateList {
    var items: seq<NfaState>

    constructor ()
      ensures items == []
    {
      items := [];
    }

    method Push(s: NfaState)
      modifies this
      ensures items == old(items) + [s]
    {
      items := items + [s];
    }

    method Contains(s: NfaState) returns (found: bool)
      ensures found <==> s in items
    {
      for i := 0 to |items|
        invariant s !in items[..i]
      {
        if items[i] == s {
          return true;
        }
      }
      return false;
    }
  }

  ghost function Ids(items: seq<NfaState>): set<nat> { set s | s in items :: s.id }

  ghost predicate AllIn(h: Heap, items: seq<NfaState>) { forall s :: s in items ==> Has(h, s) }

  /** The node of a state. */
  lemma EpsAt(h: Heap, n: nat, s: NfaState)
    requires Ok(h, n) && Has(h, s)
    ensures s.id in GraphOf(h) && |GraphOf(h)[s.id].eps| == |s.epsilons|
    ensures forall k :: 0 <= k < |s.epsilons| ==> Has(h, s.epsilons[k]) && GraphOf(h)[s.id].eps[k] == s.epsilons[k].id
    ensures GraphOf(h)[s.id].accepting == s.isAccepting
    ensures forall c :: c in GraphOf(h)[s.id].moves <==> c in s.transition
    ensures forall c :: c in s.transition ==> Has(h, s.transition[c]) && GraphOf(h)[s.id].moves[c] == s.transition[c].id
  {
  }

  lemma SameState(h: Heap, items: seq<NfaState>, s: NfaState)
    requires AllIn(h, items) && Has(h, s)
    ensures s.id in Ids(items) <==> s in items
  {
  }

  /** Follows empty moves from `state`: states not seen before are marked as seen, and
      those without empty moves are added to the next frontier. */
  method AddNextState(state: NfaState, next: StateList, visited: StateList, ghost h: Heap, ghost n: nat)
    requires Ok(h, n) && Has(h, state) && next != visited && AllIn(h, visited.items) && AllIn(h, next.items)
    modifies next, visited
    ensures AllIn(h, visited.items) && AllIn(h, next.items) && Ids(old(visited.items)) <= Ids(visited.items)
    ensures Followed(GraphOf(h), state.id, {state.id}, Ids(old(visited.items)), Ids(visited.items), Ids(old(next.items)), Ids(next.items))
    decreases h.Keys - Ids(visited.items)
  {
    hide Ok, GraphOf, NodeOf, Accepts, Followed;
    ghost var g, seen0, next0 := GraphOf(h), Ids(visited.items), Ids(next.items);
    EpsAt(h, n, state);
    FollowedNone(g, state.id, seen0, next0);
    if |state.epsilons| > 0 {
      var k := 0;
      while k < |state.epsilons|
        invariant k <= |state.epsilons| && AllIn(h, visited.items) && AllIn(h, next.items)
        invariant seen0 <= Ids(visited.items) && Ids(visited.items) <= h.Keys
        invariant forall j :: 0 <= j < k ==> state.epsilons[j].id in Ids(visited.items)
        invariant Followed(g, state.id, {}, seen0, Ids(visited.items), next0, Ids(next.items))
      {
        var st := state.epsilons[k];
        var known := visited.Contains(st);
        SameState(h, visited.items, st);
        ghost var seen1, next1 := Ids(visited.items), Ids(next.items);
        if !known {
          visited.Push(st);
          assert Ids(visited.items) == seen1 + {st.id};
          AddNextState(st, next, visited, h, n);
          EpsAt(h, n, st);
          EpsFirst(g, state.id, st.id);
          FollowedOn(g, state.id, st.id, seen0, seen1, Ids(visited.items), next0, next1, Ids(next.items));
        }
        k := k + 1;
      }
      FollowedAll(g, state.id, seen0, Ids(visited.items), next0, Ids(next.items));
    } else {
      next.Push(state);
      assert Ids(next.items) == next0 + {state.id};
      FollowedSelf(g, state.id, seen0, next0);
    }
  }

  lemma FollowedNone(g: Graph, s: nat, seen: set<nat>, next: set<nat>)
    ensures Followed(g, s, {}, seen, seen, next, next)
  {
  }

  lemma FollowedSelf(g: Graph, s: nat, seen: set<nat>, next: set<nat>)
    requires s in g && g[s].eps == []
    ensures Followed(g, s, {s}, seen, seen, next, next + {s})
  {
  }

  /** From `s`, the states `seen1 - seen0` have been found by empty moves; with `extra`
      they lead nowhere else, and those of them that are settled are what has been added to
      the frontier. */
  ghost predicate Followed(g: Graph, s: nat, extra: set<nat>, seen0: set<nat>, seen1: set<nat>, next0: set<nat>, next1: set<nat>) {
    && (forall x :: x in seen1 - seen0 ==> x in g && Accepts(g, s, x, []))
    && (forall x :: x in (seen1 - seen0) + extra ==> x in g && forall t :: t in g[x].eps ==> t in seen1)
    && (forall x :: x in next1 <==> x in next0 || (x in (seen1 - seen0) + extra && x in g && g[x].eps == []))
  }

  lemma EpsFirst(g: Graph, s: nat, t: nat)
    requires s in g && t in g[s].eps
    ensures Accepts(g, s, t, [])
  {
    Here(g, s);
    EpsExtend(g, s, s, [], t);
  }

  lemma FollowedOn(g: Graph, s: nat, t: nat, seen0: set<nat>, seen1: set<nat>, seen2: set<nat>, next0: set<nat>, next1: set<nat>, next2: set<nat>)
    requires Followed(g, s, {}, seen0, seen1, next0, next1) && seen0 <= seen1 && t !in seen1 && seen1 + {t} <= seen2
    requires Followed(g, t, {t}, seen1 + {t}, seen2, next1, next2)
    requires t in g && Accepts(g, s, t, [])
    ensures Followed(g, s, {}, seen0, seen2, next0, next2)
  {
    hide Accepts;
    forall x | x in seen2 - seen0
      ensures x in g && Accepts(g, s, x, [])
    {
      if x !in seen1 && x != t {
        AcceptsJoin(g, s, t, x);
      }
    }
  }

  lemma AcceptsJoin(g: Graph, s: nat, m: nat, t: nat)
    requires Accepts(g, s, m, []) && Accepts(g, m, t, [])
    ensures Accepts(g, s, t, [])
  {
    hide Walk, Word;
    var xs := WalkOf(g, s, m, []);
    var ys := WalkOf(g, m, t, []);
    WalkAppend(g, s, xs, m, ys, t);
  }

  lemma FollowedAll(g: Graph, s: nat, seen0: set<nat>, seen1: set<nat>, next0: set<nat>, next1: set<nat>)
    requires Followed(g, s, {}, seen0, seen1, next0, next1)
    requires s in g && g[s].eps != [] && forall t :: t in g[s].eps ==> t in seen1
    ensures Followed(g, s, {s}, seen0, seen1, next0, next1)
  {
    hide Accepts;
  }

  /** Started with nothing seen, what is added is everything settled after empty moves. */
  lemma FollowedFromNothing(g: Graph, s: nat, seen: set<nat>, next0: set<nat>, next1: set<nat>)
    requires Followed(g, s, {s}, {}, seen, next0, next1)
    ensures forall x :: x in next1 <==> x in next0 || Settled(g, s, [], x)
  {
    hide Accepts;
    Here(g, s);
    forall x
      ensures x in next1 <==> x in next0 || Settled(g, s, [], x)
    {
      if Settled(g, s, [], x) {
        var xs := WalkOf(g, s, x, []);
        EpsStays(g, s, seen, xs, x);
      }
    }
  }

  /** `search`: true exactly for the words of the language. */
  method Search(nfa: Nfa, word: string, ghost h: Heap, ghost n: nat, ghost states: set<nat>, ghost r: Regex) returns (found: bool)
    requires Ok(h, n) && HasBoth(h, nfa) && Fragment(GraphOf(h), states, nfa.start.id, nfa.end.id, r)
    ensures found <==> InLang(r, word)
  {
    hide Ok, GraphOf, NodeOf, Fragment, Accepts, Followed;
    ghost var g, start := GraphOf(h), nfa.start.id;
    var current := new StateList();
    var visited := new StateList();
    assert Ids([]) == {};
    AddNextState(nfa.start, current, visited, h, n);
    FollowedFromNothing(g, start, Ids(visited.items), {}, Ids(current.items));
    var i := 0;
    assert word[..0] == [];
    while i < |word|
      invariant i <= |word| && AllIn(h, current.items)
      invariant forall x :: x in Ids(current.items) <==> Settled(g, start, word[..i], x)
    {
      var next := NextStates(current, word[i], h, n);
      forall x
        ensures x in Ids(next.items) <==> Settled(g, start, word[..i + 1], x)
      {
        NextFrontier(g, states, start, nfa.end.id, r, word[..i], word[i], x);
        assert word[..i + 1] == word[..i] + [word[i]];
      }
      current := next;
      i := i + 1;
    }
    assert word[..i] == word;
    found := AnyAccepting(current, h, n);
    AcceptingSettled(g, states, start, nfa.end.id, r, word);
  }

  /** One symbol: every state of the frontier that can read it, and what follows. */
  method NextStates(current: StateList, symbol: char, ghost h: Heap, ghost n: nat) returns (next: StateList)
    requires Ok(h, n) && AllIn(h, current.items)
    ensures fresh(next) && AllIn(h, next.items)
    ensures var g := GraphOf(h);
            forall x :: x in Ids(next.items) <==> exists m :: m in Ids(current.items) && m in g && symbol in g[m].moves && Settled(g, g[m].moves[symbol], [], x)
  {
    hide Ok, GraphOf, NodeOf, Settled, Followed;
    ghost var g := GraphOf(h);
    next := new StateList();
    for k := 0 to |current.items|
      invariant fresh(next) && AllIn(h, next.items)
      invariant forall x :: x in Ids(next.items) <==> exists m :: m in Ids(current.items[..k]) && m in g && symbol in g[m].moves && Settled(g, g[m].moves[symbol], [], x)
    {
      var state := current.items[k];
      EpsAt(h, n, state);
      ghost var before := Ids(next.items);
      assert Ids(current.items[..k + 1]) == Ids(current.items[..k]) + {state.id};
      if symbol in state.transition {
        var visited := new StateList();
        assert Ids([]) == {};
        AddNextState(state.transition[symbol], next, visited, h, n);
        FollowedFromNothing(g, state.transition[symbol].id, Ids(visited.items), before, Ids(next.items));
      }
    }
    assert current.items[..|current.items|] == current.items;
  }

  method AnyAccepting(current: StateList, ghost h: Heap, ghost n: nat) returns (found: bool)
    requires Ok(h, n) && AllIn(h, current.items)
    ensures var g := GraphOf(h); found <==> exists x :: x in Ids(current.items) && x in g && g[x].accepting
  {
    hide Ok, GraphOf, NodeOf;
    for k := 0 to |current.items|
      invariant forall j :: 0 <= j < k ==> !current.items[j].isAccepting
    {
      EpsAt(h, n, current.items[k]);
      if current.items[k].isAccepting {
        return true;
      }
    }
    forall s | s in current.items
      ensures s.id in GraphOf(h) && GraphOf(h)[s.id].accepting == s.isAccepting
    {
      EpsAt(h, n, s);
    }
    return false;
  }

  /** From an infix pattern to the answer: the whole engine decides the language of the
      expression that the pattern is written for. */
  method CompileAndMatch(e: Infix, word: string) returns (found: bool)
    requires WellFormed(e)
    ensures found <==> InLang(Tree(e), word)
  {
    hide InLang, Ok, Fragment, GraphOf, Postfix, WellFormed, InfixText;
    YardRoundTrip(e);
    var postfix := ToPostfix(InfixText(e));
    PostfixNotEmpty(e);
    var nfa, h, n, part := ToNfa(postfix.value);
    found := Search(nfa.value, word, h, n, part.states, part.r);
  }

  /** So every expression can be matched by way of its text. */
  method PrintAndMatch(e: Regex, word: string) returns (found: bool)
    requires Printable(e)
    ensures found <==> InLang(e, word)
  {
    hide InLang, WellFormed, Print;
    PrintIsText(e);
    found := CompileAndMatch(Print(e), word);
  }

  lemma PostfixNotEmpty(e: Infix)
    ensures PostfixText(e) != []
  {
  }
}
