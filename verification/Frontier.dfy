/** The states an automaton can be in after a word, without those that only have empty
    moves. */
module Frontier {
  import opened Regex
  import opened Automaton

  /** Reached by the word, and not left again by an empty move. */
  ghost predicate Settled(g: Graph, start: nat, w: string, x: nat) {
    x in g && g[x].eps == [] && Accepts(g, start, x, w)
  }

  /** Empty moves from `s` and from all of `seen` lead into `seen`. */
  ghost predicate EpsClosed(g: Graph, s: nat, seen: set<nat>) {
    s in g && (forall t :: t in g[s].eps ==> t in seen) && (forall x :: x in seen ==> x in g && forall t :: t in g[x].eps ==> t in seen)
  }

  /** A closed set holds everything that empty moves reach. */
  lemma {:induction false} EpsStays(g: Graph, s: nat, seen: set<nat>, xs: seq<Step>, t: nat)
    requires EpsClosed(g, s, seen) && Walk(g, s, xs, t) && Word(xs) == []
    ensures t == s || t in seen
    decreases |xs|
  {
    if xs != [] {
      EpsStays(g, xs[0].to, seen, xs[1..], t);
    }
  }

  lemma {:induction false} EpsExtend(g: Graph, s: nat, m: nat, w: string, t: nat)
    requires Accepts(g, s, m, w) && m in g && t in g[m].eps
    ensures Accepts(g, s, t, w)
  {
    hide Walk, Word;
    var xs: seq<Step> :| Walk(g, s, xs, m) && Word(xs) == w;
    OneEps(g, m, t);
    WalkAppend(g, s, xs, m, [Eps(t)], t);
    assert w + [] == w;
  }

  lemma {:induction false} Here(g: Graph, s: nat)
    ensures Accepts(g, s, s, [])
  {
    assert Walk(g, s, [], s) && Word([]) == [];
  }

  /** One more symbol. */
  lemma {:induction false} SymbolExtend(g: Graph, s: nat, m: nat, w: string, c: char, t: nat)
    requires Accepts(g, s, m, w) && m in g && c in g[m].moves && Accepts(g, g[m].moves[c], t, [])
    ensures Accepts(g, s, t, w + [c])
  {
    hide Walk, Word;
    var xs: seq<Step> :| Walk(g, s, xs, m) && Word(xs) == w;
    var y := g[m].moves[c];
    var ys: seq<Step> :| Walk(g, y, ys, t) && Word(ys) == [];
    OneOn(g, m, c);
    WalkAppend(g, s, xs, m, [On(c, y)], y);
    WalkAppend(g, s, xs + [On(c, y)], y, ys, t);
    assert w + [c] + [] == w + [c];
  }

  lemma {:induction false} OneOn(g: Graph, m: nat, c: char)
    requires m in g && c in g[m].moves
    ensures var y := g[m].moves[c]; Walk(g, m, [On(c, y)], y) && Word([On(c, y)]) == [c]
  {
    var y := g[m].moves[c];
    assert [On(c, y)][1..] == [];
    assert Word([On(c, y)]) == [c] + Word([]);
  }

  /** The last symbol of a word is read in some state, after the word before it. */
  lemma {:induction false} LastSymbol(g: Graph, s: nat, xs: seq<Step>, t: nat, w: string, c: char) returns (m: nat)
    requires Walk(g, s, xs, t) && Word(xs) == w + [c]
    ensures Accepts(g, s, m, w) && m in g && c in g[m].moves && Accepts(g, g[m].moves[c], t, [])
    decreases |xs|
  {
    hide Accepts;
    var rest := xs[1..];
    if xs[0].On? {
      assert Word(xs)[0] == xs[0].c && Word(xs)[1..] == Word(rest);
      if w == [] {
        m := s;
        Here(g, s);
        AcceptsBy(g, xs[0].to, rest, t);
      } else {
        assert (w + [c])[1..] == w[1..] + [c];
        m := LastSymbol(g, xs[0].to, rest, t, w[1..], c);
        Prepend(g, s, xs[0], m, w[1..]);
        assert [xs[0].c] + w[1..] == w;
      }
    } else {
      assert Word(xs) == [] + Word(rest);
      m := LastSymbol(g, xs[0].to, rest, t, w, c);
      Prepend(g, s, xs[0], m, w);
      assert [] + w == w;
    }
  }

  lemma {:induction false} AcceptsBy(g: Graph, s: nat, xs: seq<Step>, t: nat)
    requires Walk(g, s, xs, t)
    ensures Accepts(g, s, t, Word(xs))
  {
  }

  lemma {:induction false} Prepend(g: Graph, s: nat, x: Step, t: nat, w: string)
    requires Can(g, s, x) && Accepts(g, x.to, t, w)
    ensures Accepts(g, s, t, (if x.On? then [x.c] else []) + w)
  {
    var xs: seq<Step> :| Walk(g, x.to, xs, t) && Word(xs) == w;
    assert ([x] + xs)[1..] == xs;
    assert Walk(g, s, [x] + xs, t);
  }

  /** What one symbol makes of a frontier is the next frontier; states without empty moves
      are the only ones that read symbols. */
  lemma {:induction false} NextFrontier(g: Graph, states: set<nat>, start: nat, end: nat, r: Regex, w: string, c: char, x: nat)
    requires Fragment(g, states, start, end, r)
    ensures Settled(g, start, w + [c], x)
       <==> exists m :: Settled(g, start, w, m) && c in g[m].moves && Settled(g, g[m].moves[c], [], x)
  {
    hide Walk, Word, Accepts, InLang;
    if Settled(g, start, w + [c], x) {
      var xs := WalkOf(g, start, x, w + [c]);
      var m := LastSymbol(g, start, xs, x, w, c);
      Inside(g, states, start, m, w);
      assert Settled(g, start, w, m);
    }
    if m :| Settled(g, start, w, m) && c in g[m].moves && Settled(g, g[m].moves[c], [], x) {
      SymbolExtend(g, start, m, w, c, x);
    }
  }

  lemma {:induction false} WalkOf(g: Graph, s: nat, t: nat, w: string) returns (xs: seq<Step>)
    requires Accepts(g, s, t, w)
    ensures Walk(g, s, xs, t) && Word(xs) == w
  {
    xs :| Walk(g, s, xs, t) && Word(xs) == w;
  }

  lemma {:induction false} Inside(g: Graph, states: set<nat>, s: nat, t: nat, w: string)
    requires Closed(g, states) && s in states && Accepts(g, s, t, w)
    ensures t in states
  {
    var xs: seq<Step> :| Walk(g, s, xs, t) && Word(xs) == w;
    WalkInside(g, g, states, s, xs, t);
  }

  /** The word is in the language exactly when an accepting state is settled after it. */
  lemma {:induction false} AcceptingSettled(g: Graph, states: set<nat>, start: nat, end: nat, r: Regex, w: string)
    requires Fragment(g, states, start, end, r)
    ensures InLang(r, w) <==> exists x :: Settled(g, start, w, x) && g[x].accepting
  {
    hide Walk, Word, InLang, Accepts;
    if InLang(r, w) {
      assert Accepts(g, start, end, w);
      assert Settled(g, start, w, end);
    }
    if x :| Settled(g, start, w, x) && g[x].accepting {
      Inside(g, states, start, x, w);
    }
  }
}
