/** Non-deterministic automata as graphs, and the correctness of each construction that
    turns the automata of sub-expressions into that of the whole. */
module Automaton {
  import opened Regex

  datatype Node = Node(accepting: bool, moves: map<char, nat>, eps: seq<nat>)
  type Graph = map<nat, Node>

  datatype Step = Eps(to: nat) | On(c: char, to: nat)

  predicate Can(g: Graph, s: nat, x: Step) {
    s in g &&
    match x
    case Eps(t) => t in g[s].eps
    case On(c, t) => c in g[s].moves && g[s].moves[c] == t
  }

  /** The steps lead from `s` to `t`. */
  predicate Walk(g: Graph, s: nat, xs: seq<Step>, t: nat)
    decreases |xs|
  {
    if xs == [] then s == t else Can(g, s, xs[0]) && Walk(g, xs[0].to, xs[1..], t)
  }

  function Word(xs: seq<Step>): string {
    if xs == [] then [] else (if xs[0].On? then [xs[0].c] else []) + Word(xs[1..])
  }

  ghost predicate Accepts(g: Graph, s: nat, t: nat, w: string) {
    exists xs :: Walk(g, s, xs, t) && Word(xs) == w
  }

  lemma {:induction false} WalkAppend(g: Graph, s: nat, xs: seq<Step>, m: nat, ys: seq<Step>, t: nat)
    requires Walk(g, s, xs, m) && Walk(g, m, ys, t)
    ensures Walk(g, s, xs + ys, t) && Word(xs + ys) == Word(xs) + Word(ys)
    decreases |xs|
  {
    hide Can;
    if xs == [] {
      assert xs + ys == ys;
    } else {
      assert (xs + ys)[0] == xs[0] && (xs + ys)[1..] == xs[1..] + ys;
      WalkAppend(g, xs[0].to, xs[1..], m, ys, t);
    }
  }

  lemma {:induction false} WordAppend(xs: seq<Step>, ys: seq<Step>)
    ensures Word(xs + ys) == Word(xs) + Word(ys)
    decreases |xs|
  {
    if xs == [] {
      assert xs + ys == ys;
    } else {
      assert (xs + ys)[0] == xs[0] && (xs + ys)[1..] == xs[1..] + ys;
      WordAppend(xs[1..], ys);
    }
  }

  /** Edges from `states` stay in `states`. */
  ghost predicate Closed(g: Graph, states: set<nat>) {
    forall s :: s in states ==> s in g && (forall t :: t in g[s].eps ==> t in states) && (forall c :: c in g[s].moves ==> g[s].moves[c] in states)
  }

  /** The automaton of an expression: a start, one accepting state without edges, every
      state either with empty moves only or with symbol moves only, and the language. */
  ghost predicate Fragment(g: Graph, states: set<nat>, start: nat, end: nat, r: Regex) {
    && Closed(g, states) && start in states && end in states && start != end
    && g[end].eps == [] && g[end].moves == map[]
    && (forall s :: s in states ==> (g[s].accepting <==> s == end))
    && (forall s :: s in states ==> g[s].eps == [] || g[s].moves == map[])
    && (forall w :: Accepts(g, start, end, w) <==> InLang(r, w))
  }

  ghost predicate Agree(g: Graph, g1: Graph, states: set<nat>) {
    forall s :: s in states ==> s in g && s in g1 && g1[s] == g[s]
  }

  /** A walk in a closed part does not see the rest of the graph. */
  lemma {:induction false} WalkInside(g: Graph, g1: Graph, states: set<nat>, s: nat, xs: seq<Step>, t: nat)
    requires Closed(g, states) && Agree(g, g1, states) && s in states
    ensures Walk(g, s, xs, t) <==> Walk(g1, s, xs, t)
    ensures Walk(g, s, xs, t) ==> t in states
    decreases |xs|
  {
    if xs != [] && Can(g, s, xs[0]) {
      WalkInside(g, g1, states, xs[0].to, xs[1..], t);
    }
  }

  lemma {:induction false} AcceptsInside(g: Graph, g1: Graph, states: set<nat>, s: nat, t: nat, w: string)
    requires Closed(g, states) && Agree(g, g1, states) && s in states
    ensures Accepts(g, s, t, w) <==> Accepts(g1, s, t, w)
  {
    if Accepts(g, s, t, w) {
      var xs: seq<Step> :| Walk(g, s, xs, t) && Word(xs) == w;
      WalkInside(g, g1, states, s, xs, t);
    }
    if Accepts(g1, s, t, w) {
      var xs: seq<Step> :| Walk(g1, s, xs, t) && Word(xs) == w;
      WalkInside(g, g1, states, s, xs, t);
    }
  }

  /** The part of a graph that a construction changes: the former accepting state `end`,
      which had no edges, gets new ones. */
  ghost predicate Extended(g: Graph, g1: Graph, states: set<nat>, end: nat) {
    Closed(g, states) && end in states && g[end].eps == [] && g[end].moves == map[] && Agree(g, g1, states - {end})
  }

  /** Walks to the former accepting state are still there. */
  lemma {:induction false} WalkTo(g: Graph, g1: Graph, states: set<nat>, s: nat, xs: seq<Step>, end: nat)
    requires Extended(g, g1, states, end) && s in states && Walk(g, s, xs, end)
    ensures Walk(g1, s, xs, end)
    decreases |xs|
  {
    if xs != [] {
      WalkTo(g, g1, states, xs[0].to, xs[1..], end);
    }
  }

  /** A walk that leaves the part does so from the former accepting state. */
  lemma {:induction false} FirstExit(g: Graph, g1: Graph, states: set<nat>, s: nat, xs: seq<Step>, end: nat, t: nat)
    returns (k: nat)
    requires Extended(g, g1, states, end) && s in states && t !in states && Walk(g1, s, xs, t)
    ensures k < |xs| && Walk(g, s, xs[..k], end) && Walk(g1, end, xs[k..], t)
    ensures Word(xs) == Word(xs[..k]) + Word(xs[k..])
    decreases |xs|
  {
    if s == end {
      k := 0;
      assert xs[0..] == xs;
    } else {
      var k1 := FirstExit(g, g1, states, xs[0].to, xs[1..], end, t);
      k := k1 + 1;
      assert xs[..k][0] == xs[0] && xs[..k][1..] == xs[1..][..k1];
      assert xs[k..] == xs[1..][k1..];
    }
    WordAppend(xs[..k], xs[k..]);
    assert xs[..k] + xs[k..] == xs;
  }

  lemma {:induction false} OneEps(g: Graph, s: nat, t: nat)
    requires s in g && t in g[s].eps
    ensures Walk(g, s, [Eps(t)], t) && Word([Eps(t)]) == []
  {
    assert [Eps(t)][1..] == [];
  }

  /** Two words joined by an empty move. */
  lemma {:induction false} Bridge(g: Graph, s: nat, m: nat, n: nat, t: nat, u: string, v: string)
    requires Accepts(g, s, m, u) && m in g && n in g[m].eps && Accepts(g, n, t, v)
    ensures Accepts(g, s, t, u + v)
  {
    hide Walk, Word;
    var xs: seq<Step> :| Walk(g, s, xs, m) && Word(xs) == u;
    var ys: seq<Step> :| Walk(g, n, ys, t) && Word(ys) == v;
    OneEps(g, m, n);
    WalkAppend(g, s, xs, m, [Eps(n)], n);
    WalkAppend(g, s, xs + [Eps(n)], n, ys, t);
    assert u + [] + v == u + v;
  }

  /** Words up to the former accepting state are still there. */
  lemma {:induction false} AcceptsTo(g: Graph, g1: Graph, states: set<nat>, s: nat, end: nat, w: string)
    requires Extended(g, g1, states, end) && s in states && Accepts(g, s, end, w)
    ensures Accepts(g1, s, end, w)
  {
    hide Walk, Word, Extended;
    var xs: seq<Step> :| Walk(g, s, xs, end) && Word(xs) == w;
    WalkTo(g, g1, states, s, xs, end);
  }

  /** A state without edges ends every walk. */
  lemma {:induction false} NoWayOn(g: Graph, s: nat, xs: seq<Step>, t: nat)
    requires s in g && g[s].eps == [] && g[s].moves == map[] && Walk(g, s, xs, t)
    ensures xs == [] && s == t
  {
  }

  /** The first step of a walk that is not empty. */
  lemma {:induction false} Tail(g: Graph, s: nat, xs: seq<Step>, t: nat)
    requires Walk(g, s, xs, t) && s != t && s in g && g[s].moves == map[]
    ensures xs != [] && xs[0].Eps? && xs[0].to in g[s].eps && Walk(g, xs[0].to, xs[1..], t) && Word(xs) == Word(xs[1..])
  {
  }

  // ----- single states -----

  lemma {:induction false} EmptyFragment(g: Graph, start: nat, end: nat)
    requires start in g && end in g && start != end
    requires g[start] == Node(false, map[], [end]) && g[end] == Node(true, map[], [])
    ensures Fragment(g, {start, end}, start, end, Nothing)
  {
    forall w
      ensures Accepts(g, start, end, w) <==> InLang(Nothing, w)
    {
      OneEps(g, start, end);
      if Accepts(g, start, end, w) {
        var xs: seq<Step> :| Walk(g, start, xs, end) && Word(xs) == w;
        Tail(g, start, xs, end);
        NoWayOn(g, end, xs[1..], end);
      }
    }
  }

  lemma {:induction false} SymbolFragment(g: Graph, start: nat, end: nat, c: char)
    requires start in g && end in g && start != end
    requires g[start] == Node(false, map[c := end], []) && g[end] == Node(true, map[], [])
    ensures Fragment(g, {start, end}, start, end, Sym(c))
  {
    forall w
      ensures Accepts(g, start, end, w) <==> InLang(Sym(c), w)
    {
      var one := [On(c, end)];
      assert one[1..] == [];
      assert Walk(g, start, one, end);
      assert Word(one) == [c] + Word(one[1..]);
      if Accepts(g, start, end, w) {
        var xs: seq<Step> :| Walk(g, start, xs, end) && Word(xs) == w;
        NoWayOn(g, end, xs[1..], end);
        assert xs == one;
      }
    }
  }

  // ----- one after the other -----

  lemma {:induction false} ConcatFragment(g: Graph, g1: Graph, states1: set<nat>, states2: set<nat>,
                       start1: nat, end1: nat, start2: nat, end2: nat, a: Regex, b: Regex)
    requires Fragment(g, states1, start1, end1, a) && Fragment(g, states2, start2, end2, b) && states1 !! states2
    requires Agree(g, g1, states1 + states2 - {end1}) && end1 in g1 && g1[end1] == Node(false, map[], [start2])
    ensures Fragment(g1, states1 + states2, start1, end2, Cat(a, b))
  {
    hide Walk, Word, InLang;
    forall w
      ensures Accepts(g1, start1, end2, w) <==> InLang(Cat(a, b), w)
    {
      if Accepts(g1, start1, end2, w) {
        ConcatSound(g, g1, states1, states2, start1, end1, start2, end2, a, b, w);
      }
      if InLang(Cat(a, b), w) {
        ConcatComplete(g, g1, states1, states2, start1, end1, start2, end2, a, b, w);
      }
    }
  }

  lemma {:induction false} ConcatSound(g: Graph, g1: Graph, states1: set<nat>, states2: set<nat>,
                    start1: nat, end1: nat, start2: nat, end2: nat, a: Regex, b: Regex, w: string)
    requires Fragment(g, states1, start1, end1, a) && Fragment(g, states2, start2, end2, b) && states1 !! states2
    requires Agree(g, g1, states1 + states2 - {end1}) && end1 in g1 && g1[end1] == Node(false, map[], [start2])
    requires Accepts(g1, start1, end2, w)
    ensures InLang(Cat(a, b), w)
  {
    hide Walk, Word, InLang;
    var xs: seq<Step> :| Walk(g1, start1, xs, end2) && Word(xs) == w;
    var k := FirstExit(g, g1, states1, start1, xs, end1, end2);
    Tail(g1, end1, xs[k..], end2);
    var rest := xs[k..][1..];
    WalkInside(g, g1, states2, start2, rest, end2);
    assert Accepts(g, start1, end1, Word(xs[..k])) && Accepts(g, start2, end2, Word(rest));
    CatIntro(a, b, Word(xs[..k]), Word(rest));
  }

  lemma {:induction false} CanExtend(g: Graph, g1: Graph, states: set<nat>, start: nat, end: nat, r: Regex)
    requires Fragment(g, states, start, end, r) && Agree(g, g1, states - {end})
    ensures Extended(g, g1, states, end) && start in states
  {
  }

  lemma {:induction false} ConcatComplete(g: Graph, g1: Graph, states1: set<nat>, states2: set<nat>,
                       start1: nat, end1: nat, start2: nat, end2: nat, a: Regex, b: Regex, w: string)
    requires Fragment(g, states1, start1, end1, a) && Fragment(g, states2, start2, end2, b) && states1 !! states2
    requires Agree(g, g1, states1 + states2 - {end1}) && end1 in g1 && g1[end1] == Node(false, map[], [start2])
    requires InLang(Cat(a, b), w)
    ensures Accepts(g1, start1, end2, w)
  {
    hide Walk, Word, InLang, Accepts;
    var i := CatSplit(a, b, w);
    CanExtend(g, g1, states1, start1, end1, a);
    AcceptsTo(g, g1, states1, start1, end1, w[..i]);
    AcceptsInside(g, g1, states2, start2, end2, w[i..]);
    Bridge(g1, start1, end1, start2, end2, w[..i], w[i..]);
    assert w[..i] + w[i..] == w;
  }

  lemma {:induction false} CatSplit(a: Regex, b: Regex, w: string) returns (i: nat)
    requires InLang(Cat(a, b), w)
    ensures i <= |w| && InLang(a, w[..i]) && InLang(b, w[i..])
  {
    i :| 0 <= i <= |w| && InLang(a, w[..i]) && InLang(b, w[i..]);
  }

  // ----- one or the other -----

  /** The first graph with two more states, and both former ends leading to the new one. */
  ghost predicate Joined(g: Graph, g1: Graph, states1: set<nat>, states2: set<nat>,
                         start1: nat, end1: nat, start2: nat, end2: nat, start: nat, end: nat) {
    && start != end && start !in states1 + states2 && end !in states1 + states2
    && start in g1 && end in g1 && end1 in g1 && end2 in g1
    && Agree(g, g1, states1 + states2 - {end1, end2})
    && g1[start] == Node(false, map[], [start1, start2]) && g1[end] == Node(true, map[], [])
    && g1[end1] == Node(false, map[], [end]) && g1[end2] == Node(false, map[], [end])
  }

  lemma {:induction false} UnionFragment(g: Graph, g1: Graph, states1: set<nat>, states2: set<nat>,
                      start1: nat, end1: nat, start2: nat, end2: nat, start: nat, end: nat, a: Regex, b: Regex)
    requires Fragment(g, states1, start1, end1, a) && Fragment(g, states2, start2, end2, b) && states1 !! states2
    requires Joined(g, g1, states1, states2, start1, end1, start2, end2, start, end)
    ensures Fragment(g1, states1 + states2 + {start, end}, start, end, Alt(a, b))
  {
    hide Walk, Word;
    forall w
      ensures Accepts(g1, start, end, w) <==> InLang(Alt(a, b), w)
    {
      ThroughOne(g, g1, states1, start1, end1, end, a, w);
      ThroughOne(g, g1, states2, start2, end2, end, b, w);
      FromStart(g1, start, end, w);
    }
  }

  /** From a new start every word is one from one of its targets. */
  lemma {:induction false} FromStart(g: Graph, start: nat, end: nat, w: string)
    requires start in g && start != end && g[start].moves == map[]
    ensures Accepts(g, start, end, w) <==> exists t :: t in g[start].eps && Accepts(g, t, end, w)
  {
    if Accepts(g, start, end, w) {
      var xs: seq<Step> :| Walk(g, start, xs, end) && Word(xs) == w;
      Tail(g, start, xs, end);
      assert Accepts(g, xs[0].to, end, w);
    }
    if t: nat :| t in g[start].eps && Accepts(g, t, end, w) {
      var xs: seq<Step> :| Walk(g, t, xs, end) && Word(xs) == w;
      OneEps(g, start, t);
      WalkAppend(g, start, [Eps(t)], t, xs, end);
    }
  }

  /** A part whose end leads only to the new end is passed through with the same words. */
  lemma {:induction false} ThroughOne(g: Graph, g1: Graph, states: set<nat>, start0: nat, end0: nat, end: nat, r: Regex, w: string)
    requires Fragment(g, states, start0, end0, r) && Agree(g, g1, states - {end0})
    requires end !in states && end in g1 && g1[end] == Node(true, map[], [])
    requires end0 in g1 && g1[end0] == Node(false, map[], [end])
    ensures Accepts(g1, start0, end, w) <==> InLang(r, w)
  {
    hide Walk, Word, InLang;
    if Accepts(g1, start0, end, w) {
      var xs: seq<Step> :| Walk(g1, start0, xs, end) && Word(xs) == w;
      var k := FirstExit(g, g1, states, start0, xs, end0, end);
      Tail(g1, end0, xs[k..], end);
      NoWayOn(g1, end, xs[k..][1..], end);
      NoWord();
      assert Word(xs[..k]) + [] == w;
      assert Accepts(g, start0, end0, w);
    }
    if InLang(r, w) {
      AcceptsTo(g, g1, states, start0, end0, w);
      AtEnd(g1, end, []);
      Bridge(g1, start0, end0, end, end, w, []);
      assert w + [] == w;
    }
  }

  lemma {:induction false} NoWord()
    ensures Word([]) == []
  {
  }

  // ----- optional and repeated -----

  /** A part wrapped in a new start and a new end. */
  ghost predicate Wrapped(g: Graph, g1: Graph, states: set<nat>, start0: nat, end0: nat, start: nat, end: nat,
                          fromStart: seq<nat>, fromEnd: seq<nat>) {
    && start != end && start !in states && end !in states && start in g1 && end in g1 && end0 in g1
    && Agree(g, g1, states - {end0})
    && g1[start] == Node(false, map[], fromStart) && g1[end] == Node(true, map[], [])
    && g1[end0] == Node(false, map[], fromEnd)
  }

  lemma {:induction false} OptionalFragment(g: Graph, g1: Graph, states: set<nat>, start0: nat, end0: nat, start: nat, end: nat, r: Regex)
    requires Fragment(g, states, start0, end0, r)
    requires Wrapped(g, g1, states, start0, end0, start, end, [end, start0], [end])
    ensures Fragment(g1, states + {start, end}, start, end, Opt(r))
  {
    hide Walk, Word;
    forall w
      ensures Accepts(g1, start, end, w) <==> InLang(Opt(r), w)
    {
      ThroughOne(g, g1, states, start0, end0, end, r, w);
      AtEnd(g1, end, w);
      FromStart(g1, start, end, w);
    }
  }

  lemma {:induction false} AtEnd(g: Graph, end: nat, w: string)
    requires end in g && g[end].eps == [] && g[end].moves == map[]
    ensures Accepts(g, end, end, w) <==> w == []
  {
    if Accepts(g, end, end, w) {
      var xs: seq<Step> :| Walk(g, end, xs, end) && Word(xs) == w;
      NoWayOn(g, end, xs, end);
    }
    if w == [] {
      assert Walk(g, end, [], end) && Word([]) == [];
    }
  }

  lemma {:induction false} OneOrMoreFragment(g: Graph, g1: Graph, states: set<nat>, start0: nat, end0: nat, start: nat, end: nat, r: Regex)
    requires Fragment(g, states, start0, end0, r)
    requires Wrapped(g, g1, states, start0, end0, start, end, [start0], [end, start0])
    ensures Fragment(g1, states + {start, end}, start, end, Plus(r))
  {
    hide Walk, Word, InLang;
    forall w
      ensures Accepts(g1, start, end, w) <==> InLang(Plus(r), w)
    {
      Loop(g, g1, states, start0, end0, end, r, w);
      FromStart(g1, start, end, w);
    }
  }

  lemma {:induction false} ClosureFragment(g: Graph, g1: Graph, states: set<nat>, start0: nat, end0: nat, start: nat, end: nat, r: Regex)
    requires Fragment(g, states, start0, end0, r)
    requires Wrapped(g, g1, states, start0, end0, start, end, [end, start0], [end, start0])
    ensures Fragment(g1, states + {start, end}, start, end, Star(r))
  {
    hide Walk, Word, InLang;
    forall w
      ensures Accepts(g1, start, end, w) <==> InLang(Star(r), w)
    {
      Loop(g, g1, states, start0, end0, end, r, w);
      AtEnd(g1, end, w);
      FromStart(g1, start, end, w);
      StarIs(r, w);
      StarOrPlus(r, w);
    }
  }

  lemma {:induction false} StarOrPlus(r: Regex, w: string)
    ensures InStar(r, w) <==> w == [] || InLang(Plus(r), w)
  {
    if InLang(Plus(r), w) {
      var i := PlusSplit(r, w);
      StarCons(r, w[..i], w[i..]);
      assert w[..i] + w[i..] == w;
    }
    if InStar(r, w) && w != [] {
      var i :| 0 < i <= |w| && InLang(r, w[..i]) && InStar(r, w[i..]);
      PlusIntro(r, w[..i], w[i..]);
      assert w[..i] + w[i..] == w;
    }
  }

  lemma {:induction false} PlusSplit(r: Regex, w: string) returns (i: nat)
    requires InLang(Plus(r), w)
    ensures i <= |w| && InLang(r, w[..i]) && InStar(r, w[i..])
  {
    i :| 0 <= i <= |w| && InLang(r, w[..i]) && InStar(r, w[i..]);
  }

  /** A part whose end leads to the new end and back to its own start is gone through one
      or more times. */
  lemma {:induction false} Loop(g: Graph, g1: Graph, states: set<nat>, start0: nat, end0: nat, end: nat, r: Regex, w: string)
    requires Fragment(g, states, start0, end0, r) && Agree(g, g1, states - {end0})
    requires end !in states && end in g1 && g1[end] == Node(true, map[], [])
    requires end0 in g1 && g1[end0] == Node(false, map[], [end, start0])
    ensures Accepts(g1, start0, end, w) <==> InLang(Plus(r), w)
  {
    hide Walk, Word, InLang;
    if Accepts(g1, start0, end, w) {
      var xs: seq<Step> :| Walk(g1, start0, xs, end) && Word(xs) == w;
      LoopSound(g, g1, states, start0, end0, end, r, xs);
    }
    if InLang(Plus(r), w) {
      var i := PlusSplit(r, w);
      LoopComplete(g, g1, states, start0, end0, end, r, w[..i], w[i..]);
      assert w[..i] + w[i..] == w;
    }
  }

  lemma {:induction false} LoopSound(g: Graph, g1: Graph, states: set<nat>, start0: nat, end0: nat, end: nat, r: Regex, xs: seq<Step>)
    requires Fragment(g, states, start0, end0, r) && Agree(g, g1, states - {end0})
    requires end !in states && end in g1 && g1[end] == Node(true, map[], [])
    requires end0 in g1 && g1[end0] == Node(false, map[], [end, start0])
    requires Walk(g1, start0, xs, end)
    ensures InLang(Plus(r), Word(xs))
    decreases |xs|
  {
    hide Walk, Word, InLang;
    var k := FirstExit(g, g1, states, start0, xs, end0, end);
    Tail(g1, end0, xs[k..], end);
    var rest := xs[k..][1..];
    assert Accepts(g, start0, end0, Word(xs[..k]));
    if xs[k].to == end {
      NoWayOn(g1, end, rest, end);
      NoWord();
      NoneIsStar(r);
    } else {
      LoopSound(g, g1, states, start0, end0, end, r, rest);
      StarOrPlus(r, Word(rest));
    }
    PlusIntro(r, Word(xs[..k]), Word(rest));
  }

  lemma {:induction false} NoneIsStar(r: Regex)
    ensures InStar(r, [])
  {
  }

  lemma {:induction false} LoopComplete(g: Graph, g1: Graph, states: set<nat>, start0: nat, end0: nat, end: nat, r: Regex,
                                        u: string, v: string)
    requires Fragment(g, states, start0, end0, r) && Agree(g, g1, states - {end0})
    requires end !in states && end in g1 && g1[end] == Node(true, map[], [])
    requires end0 in g1 && g1[end0] == Node(false, map[], [end, start0])
    requires InLang(r, u) && InStar(r, v)
    ensures Accepts(g1, start0, end, u + v)
    decreases |v|
  {
    hide Walk, Word, InLang, Accepts;
    CanExtend(g, g1, states, start0, end0, r);
    AcceptsTo(g, g1, states, start0, end0, u);
    if v == [] {
      AtEnd(g1, end, []);
      Bridge(g1, start0, end0, end, end, u, []);
    } else {
      var i := StarSplit(r, v);
      LoopComplete(g, g1, states, start0, end0, end, r, v[..i], v[i..]);
      assert v[..i] + v[i..] == v;
      Bridge(g1, start0, end0, start0, end, u, v);
    }
  }

  lemma {:induction false} StarSplit(r: Regex, v: string) returns (i: nat)
    requires InStar(r, v) && v != []
    ensures 0 < i <= |v| && InLang(r, v[..i]) && InStar(r, v[i..])
  {
    i :| 0 < i <= |v| && InLang(r, v[..i]) && InStar(r, v[i..]);
  }

  // ----- growing the graph -----

  function Put(g: Graph, n: nat, accepting: bool): Graph { g[n := Node(accepting, map[], [])] }

  function Link(g: Graph, s: nat, t: nat): (g1: Graph)
    requires s in g
    ensures g1.Keys == g.Keys
  {
    g[s := g[s].(eps := g[s].eps + [t])]
  }

  function Move(g: Graph, s: nat, c: char, t: nat): (g1: Graph)
    requires s in g
    ensures g1.Keys == g.Keys
  {
    g[s := g[s].(moves := g[s].moves[c := t])]
  }

  function Rejecting(g: Graph, s: nat): (g1: Graph)
    requires s in g
    ensures g1.Keys == g.Keys
  {
    g[s := g[s].(accepting := false)]
  }

  /** The graph after `union`, in the order in which it is changed. */
  function UnionGraph(g: Graph, n: nat, start1: nat, end1: nat, start2: nat, end2: nat): Graph
    requires end1 in g && end2 in g
  {
    var g1 := Put(Link(Link(Put(g, n, false), n, start1), n, start2), n + 1, true);
    Rejecting(Rejecting(Link(Link(g1, end1, n + 1), end2, n + 1), end1), end2)
  }

  function ClosureGraph(g: Graph, n: nat, start0: nat, end0: nat): Graph
    requires end0 in g
  {
    var g1 := Link(Link(Put(Put(g, n, false), n + 1, true), n, n + 1), n, start0);
    Rejecting(Link(Link(g1, end0, n + 1), end0, start0), end0)
  }

  function OptionalGraph(g: Graph, n: nat, start0: nat, end0: nat): Graph
    requires end0 in g
  {
    var g1 := Link(Link(Put(Put(g, n, false), n + 1, true), n, n + 1), n, start0);
    Rejecting(Link(g1, end0, n + 1), end0)
  }

  function OneOrMoreGraph(g: Graph, n: nat, start0: nat, end0: nat): Graph
    requires end0 in g
  {
    var g1 := Link(Put(Put(g, n, false), n + 1, true), n, start0);
    Rejecting(Link(Link(g1, end0, n + 1), end0, start0), end0)
  }

  function ConcatGraph(g: Graph, end1: nat, start2: nat): Graph
    requires end1 in g
  {
    Rejecting(Link(g, end1, start2), end1)
  }

  function EmptyGraph(g: Graph, n: nat): Graph { Link(Put(Put(g, n, false), n + 1, true), n, n + 1) }

  function SymbolGraph(g: Graph, n: nat, c: char): Graph { Move(Put(Put(g, n, false), n + 1, true), n, c, n + 1) }

  /** States are numbered below `n`. */
  ghost predicate Dense(g: Graph, n: nat) { forall i: nat :: i in g <==> i < n }

  lemma {:induction false} EmptyBuilt(g: Graph, n: nat)
    requires Dense(g, n)
    ensures Fragment(EmptyGraph(g, n), {n, n + 1}, n, n + 1, Nothing) && Agree(g, EmptyGraph(g, n), g.Keys)
  {
    hide Fragment;
    EmptyFragment(EmptyGraph(g, n), n, n + 1);
  }

  lemma {:induction false} SymbolBuilt(g: Graph, n: nat, c: char)
    requires Dense(g, n)
    ensures Fragment(SymbolGraph(g, n, c), {n, n + 1}, n, n + 1, Sym(c)) && Agree(g, SymbolGraph(g, n, c), g.Keys)
  {
    hide Fragment;
    SymbolFragment(SymbolGraph(g, n, c), n, n + 1, c);
  }

  lemma {:induction false} InGraph(g: Graph, n: nat, states: set<nat>, start: nat, end: nat, r: Regex)
    requires Dense(g, n) && Fragment(g, states, start, end, r)
    ensures start in states && end in states && states <= g.Keys && (forall i :: i in states ==> i < n) && g[end].eps == [] && g[end].moves == map[]
  {
  }

  lemma {:induction false} ConcatBuilt(g: Graph, n: nat, states1: set<nat>, states2: set<nat>,
                                       start1: nat, end1: nat, start2: nat, end2: nat, a: Regex, b: Regex)
    requires Dense(g, n) && Fragment(g, states1, start1, end1, a) && Fragment(g, states2, start2, end2, b) && states1 !! states2
    ensures var g1 := ConcatGraph(g, end1, start2);
            Fragment(g1, states1 + states2, start1, end2, Cat(a, b)) && Agree(g, g1, g.Keys - {end1})
  {
    hide Fragment;
    InGraph(g, n, states1, start1, end1, a);
    InGraph(g, n, states2, start2, end2, b);
    ConcatFragment(g, ConcatGraph(g, end1, start2), states1, states2, start1, end1, start2, end2, a, b);
  }

  lemma {:induction false} UnionBuilt(g: Graph, n: nat, states1: set<nat>, states2: set<nat>,
                                      start1: nat, end1: nat, start2: nat, end2: nat, a: Regex, b: Regex)
    requires Dense(g, n) && Fragment(g, states1, start1, end1, a) && Fragment(g, states2, start2, end2, b) && states1 !! states2
    ensures var g1 := UnionGraph(g, n, start1, end1, start2, end2);
            && Fragment(g1, states1 + states2 + {n, n + 1}, n, n + 1, Alt(a, b))
            && Agree(g, g1, g.Keys - {end1, end2})
  {
    hide Fragment;
    InGraph(g, n, states1, start1, end1, a);
    InGraph(g, n, states2, start2, end2, b);
    UnionFragment(g, UnionGraph(g, n, start1, end1, start2, end2), states1, states2, start1, end1, start2, end2, n, n + 1, a, b);
  }

  lemma {:induction false} ClosureBuilt(g: Graph, n: nat, states: set<nat>, start0: nat, end0: nat, r: Regex)
    requires Dense(g, n) && Fragment(g, states, start0, end0, r)
    ensures var g1 := ClosureGraph(g, n, start0, end0);
            Fragment(g1, states + {n, n + 1}, n, n + 1, Star(r)) && Agree(g, g1, g.Keys - {end0})
  {
    hide Fragment;
    InGraph(g, n, states, start0, end0, r);
    ClosureFragment(g, ClosureGraph(g, n, start0, end0), states, start0, end0, n, n + 1, r);
  }

  lemma {:induction false} OptionalBuilt(g: Graph, n: nat, states: set<nat>, start0: nat, end0: nat, r: Regex)
    requires Dense(g, n) && Fragment(g, states, start0, end0, r)
    ensures var g1 := OptionalGraph(g, n, start0, end0);
            Fragment(g1, states + {n, n + 1}, n, n + 1, Opt(r)) && Agree(g, g1, g.Keys - {end0})
  {
    hide Fragment;
    InGraph(g, n, states, start0, end0, r);
    OptionalFragment(g, OptionalGraph(g, n, start0, end0), states, start0, end0, n, n + 1, r);
  }

  lemma {:induction false} OneOrMoreBuilt(g: Graph, n: nat, states: set<nat>, start0: nat, end0: nat, r: Regex)
    requires Dense(g, n) && Fragment(g, states, start0, end0, r)
    ensures var g1 := OneOrMoreGraph(g, n, start0, end0);
            Fragment(g1, states + {n, n + 1}, n, n + 1, Plus(r)) && Agree(g, g1, g.Keys - {end0})
  {
    hide Fragment;
    InGraph(g, n, states, start0, end0, r);
    OneOrMoreFragment(g, OneOrMoreGraph(g, n, start0, end0), states, start0, end0, n, n + 1, r);
  }

  // ----- a stack of automata -----

  /** Automata with states of their own; `ends[i]` are the start and the end of `parts[i]`. */
  datatype Part = Part(states: set<nat>, r: Regex, start: nat, end: nat)

  ghost predicate Stacked(g: Graph, parts: seq<Part>) {
    && (forall i :: 0 <= i < |parts| ==> Fragment(g, parts[i].states, parts[i].start, parts[i].end, parts[i].r))
    && (forall i, j :: 0 <= i < j < |parts| ==> parts[i].states !! parts[j].states)
  }

  function Trees(parts: seq<Part>): seq<Regex> { seq(|parts|, i requires 0 <= i < |parts| => parts[i].r) }

  /** The lowest automata of a stack are kept, and one more is put on top; the states of
      the new one belonged to the others, or are new. */
  lemma {:induction false} Restacked(g: Graph, g1: Graph, n: nat, parts: seq<Part>, k: nat, p: Part, changed: set<nat>)
    requires Dense(g, n) && Stacked(g, parts) && k <= |parts| && Agree(g, g1, g.Keys - changed)
    requires forall i :: 0 <= i < k ==> parts[i].states !! changed
    requires Fragment(g1, p.states, p.start, p.end, p.r)
    requires forall i :: 0 <= i < k ==> parts[i].states !! p.states
    ensures Stacked(g1, parts[..k] + [p])
  {
    hide Fragment;
    forall i | 0 <= i < k
      ensures Fragment(g1, parts[i].states, parts[i].start, parts[i].end, parts[i].r)
    {
      InGraph(g, n, parts[i].states, parts[i].start, parts[i].end, parts[i].r);
      FragmentKept(g, g1, parts[i].states, parts[i].start, parts[i].end, parts[i].r);
    }
  }

  /** A part that is not touched keeps its language. */
  lemma {:induction false} FragmentKept(g: Graph, g1: Graph, states: set<nat>, start: nat, end: nat, r: Regex)
    requires Fragment(g, states, start, end, r) && Agree(g, g1, states)
    ensures Fragment(g1, states, start, end, r)
  {
    hide InLang, Walk, Word;
    forall w
      ensures Accepts(g1, start, end, w) <==> InLang(r, w)
    {
      AcceptsInside(g, g1, states, start, end, w);
    }
  }
}
