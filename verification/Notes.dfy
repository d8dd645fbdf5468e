/** What the compiler knows at each place of the code it emits, read off the code in one
    straight line: which catch labels enclose the place, how many of them have just been
    popped, and how many operands are on the stack. */
module Notes {
  import opened Syntax
  import opened Assembly
  import opened Codegen
  import opened Effects
  import opened Compiler

  /** `nest` holds the catch labels around a place, innermost last; `popped` is how many
      `try`s the instructions directly before it have left. */
  datatype Note = Note(nest: seq<nat>, popped: nat, height: int) {
    /** The `try`s that are active at run time. */
    function Active(): seq<nat> { if popped <= |nest| then nest[..|nest| - popped] else [] }
  }

  /** A jump moves no operand; the other effects are those of the table. */
  function Moves(it: Item): int {
    match it
    case Op(op, arg) => if op == Jump then 0 else StackEffect(op, arg)
    case Ref(op, _) => if op == Jump then 0 else StackEffect(op, 0)
    case _ => 0
  }

  /** How many operands an instruction uses. */
  function Takes(it: Item): nat {
    match it
    case Op(op, arg) =>
      (match op
       case Un(_) => 1
       case Inc => 1
       case Dec => 1
       case Bin(_) => 2
       case CallFn => arg + 1
       case Pop => 1
       case Dup => 1
       case StoreLocal => 1
       case StoreGlobal => 1
       case ThrowOp => 1
       case Ret => 1
       case _ => 0)
    case Ref(op, _) => if op in {JumpIfTrue, JumpIfFalse} then 1 else 0
    case _ => 0
  }

  /** The note after an item.  Only `PushTry` and `Catch` change what encloses a place. */
  function After1(it: Item, n: Note): Note {
    var h := n.height + Moves(it);
    if it.Ref? && it.op == PushTry then Note(n.nest + [it.lab], 0, h)
    else if it.Op? && it.op == PopTry then Note(n.nest, n.popped + 1, h)
    else if it.Op? && it.op == Catch then Note(if n.nest == [] then [] else n.nest[..|n.nest| - 1], 0, h)
    else Note(n.nest, 0, h)
  }

  /** The note before the `k`th item, when the first has note `n`. */
  function NoteAt(g: seq<Item>, n: Note, k: nat): Note
    requires k <= |g|
  {
    if k == 0 then n else After1(g[k - 1], NoteAt(g, n, k - 1))
  }

  function End(g: seq<Item>, n: Note): Note { NoteAt(g, n, |g|) }

  /** The notes at labels, and a bound on the nesting. */
  datatype Env = Env(labels: map<nat, Note>, depth: nat) {
    function Add(l: nat, n: Note): Env { this.(labels := labels[l := n]) }

    predicate Says(l: nat, n: Note) { l in labels && labels[l] == n }
  }

  /** The catch label of each enclosing `try` is inside that `try` and no deeper, and has
      no more operands than there are here. */
  ghost predicate Settled(nest: seq<nat>, height: int, env: Env) {
    && |nest| <= env.depth
    && forall j :: 0 <= j < |nest| ==>
         nest[j] in env.labels && env.labels[nest[j]].nest == nest[..j + 1] && env.labels[nest[j]].height <= height
  }

  /** An item suits its note: control arrives at a label with the note of the label, and an
      instruction uses no operand that was there before its innermost `try`. */
  ghost predicate Fits(it: Item, n: Note, env: Env) {
    && Settled(n.nest, n.height - Takes(it), env) && n.height >= 0
    && match it
       case Mark(l) => n.popped == 0 && env.Says(l, n)
       case Ref(op, l) =>
         if op == Jump then n.popped <= |n.nest| && env.Says(l, Note(n.Active(), 0, n.height))
         else n.popped == 0 && (op in {PushTry, JumpIfTrue, JumpIfFalse}) && env.Says(l, After1(it, n))
       case Op(op, _) =>
         if op == PopTry then n.popped < |n.nest|
         else n.popped == 0 && op !in {Jump, JumpIfTrue, JumpIfFalse, PushTry} && (op == Catch ==> n.nest != [])
       case _ => false
  }

  ghost predicate Typed(g: seq<Item>, n: Note, env: Env) {
    forall k :: 0 <= k < |g| ==> Fits(g[k], NoteAt(g, n, k), env)
  }

  ghost predicate Extends(env: Env, more: Env) {
    more.depth == env.depth && forall l :: l in env.labels ==> l in more.labels && more.labels[l] == env.labels[l]
  }

  ghost predicate Below(env: Env, l: nat) {
    forall x :: x in env.labels ==> x < l
  }

  // ----- putting pieces together -----

  lemma {:induction false} NotesConcat(a: seq<Item>, b: seq<Item>, n: Note, k: nat)
    requires k <= |a + b|
    ensures NoteAt(a + b, n, k) == if k <= |a| then NoteAt(a, n, k) else NoteAt(b, End(a, n), k - |a|)
  {
    if k > 0 {
      NotesConcat(a, b, n, k - 1);
      assert k > |a| ==> (a + b)[k - 1] == b[k - 1 - |a|];
      assert k == |a| + 1 ==> NoteAt(b, End(a, n), 0) == End(a, n);
    }
  }

  lemma TypedConcat(a: seq<Item>, b: seq<Item>, n: Note, env: Env)
    requires Typed(a, n, env) && Typed(b, End(a, n), env)
    ensures Typed(a + b, n, env) && End(a + b, n) == End(b, End(a, n))
  {
    hide Fits, NoteAt;
    var g := a + b;
    forall k | 0 <= k < |g|
      ensures Fits(g[k], NoteAt(g, n, k), env)
    {
      NotesConcat(a, b, n, k);
      NoteStart(b, End(a, n));
    }
    NotesConcat(a, b, n, |g|);
    NoteStart(b, End(a, n));
    assert b == [] ==> g == a;
  }

  lemma NoteStart(g: seq<Item>, n: Note)
    ensures NoteAt(g, n, 0) == n
  {
  }

  lemma TypedOne(it: Item, n: Note, env: Env)
    requires Fits(it, n, env)
    ensures Typed([it], n, env) && End([it], n) == After1(it, n)
  {
    NoteStart([it], n);
    assert NoteAt([it], n, 1) == After1([it][0], NoteAt([it], n, 0));
  }

  lemma TypedNone(n: Note, env: Env)
    ensures Typed([], n, env) && End([], n) == n
  {
  }

  /** One item after a piece. */
  lemma TypedThen(g: seq<Item>, it: Item, n: Note, env: Env)
    requires Typed(g, n, env) && Fits(it, End(g, n), env)
    ensures Typed(g + [it], n, env) && End(g + [it], n) == After1(it, End(g, n))
  {
    hide Fits, NoteAt, After1;
    TypedOne(it, End(g, n), env);
    TypedConcat(g, [it], n, env);
  }

  lemma TypedGrows(g: seq<Item>, n: Note, env: Env, more: Env)
    requires Typed(g, n, env) && Extends(env, more)
    ensures Typed(g, n, more)
  {
    hide NoteAt;
    forall k | 0 <= k < |g|
      ensures Fits(g[k], NoteAt(g, n, k), more)
    {
      FitsGrows(g[k], NoteAt(g, n, k), env, more);
    }
  }

  lemma FitsGrows(it: Item, n: Note, env: Env, more: Env)
    requires Fits(it, n, env) && Extends(env, more)
    ensures Fits(it, n, more)
  {
    SettledGrows(n.nest, n.height - Takes(it), env, more);
  }

  lemma SettledGrows(nest: seq<nat>, height: int, env: Env, more: Env)
    requires Settled(nest, height, env) && Extends(env, more)
    ensures Settled(nest, height, more)
  {
  }

  lemma SettledHigher(nest: seq<nat>, height: int, more: int, env: Env)
    requires Settled(nest, height, env) && height <= more
    ensures Settled(nest, more, env)
  {
  }

  lemma ExtendsAdd(env: Env, l: nat, n: Note)
    requires Below(env, l)
    ensures Extends(env, env.Add(l, n)) && Below(env.Add(l, n), l + 1) && env.Add(l, n).Says(l, n)
  {
  }

  lemma ExtendsTrans(a: Env, b: Env, c: Env)
    requires Extends(a, b) && Extends(b, c)
    ensures Extends(a, c)
  {
  }

  // ----- plain instructions -----

  /** Instructions that only move operands. */
  predicate Plain(it: Item) {
    it.Op? && it.op !in {Jump, JumpIfTrue, JumpIfFalse, PushTry, PopTry, Catch}
  }

  /** A place in straight code: nothing has just been popped. */
  ghost predicate Ready(n: Note, env: Env) {
    n.popped == 0 && n.height >= 0 && Settled(n.nest, n.height, env)
  }

  function Up(n: Note, d: int): Note { n.(height := n.height + d) }

  lemma PlainFits(it: Item, n: Note, d: int, env: Env)
    requires Plain(it) && Ready(n, env) && Takes(it) <= d
    ensures Fits(it, Up(n, d), env) && After1(it, Up(n, d)) == Up(n, d + Moves(it))
  {
    SettledHigher(n.nest, n.height, n.height + d - Takes(it), env);
  }

  /** A plain instruction after a piece that moves the height by `d`. */
  lemma PlainThen(g: seq<Item>, it: Item, n: Note, d: int, env: Env)
    requires Plain(it) && Ready(n, env) && d >= Takes(it) && Typed(g, n, env) && End(g, n) == Up(n, d)
    ensures Typed(g + [it], n, env) && End(g + [it], n) == Up(n, d + Moves(it))
  {
    hide Fits, NoteAt, After1, Moves, Takes, Plain;
    PlainFits(it, n, d, env);
    TypedThen(g, it, n, env);
  }

  /** Any piece before another. */
  lemma Join(a: seq<Item>, b: seq<Item>, n: Note, d: int, e: int, env: Env)
    requires Typed(a, n, env) && End(a, n) == Up(n, d) && Typed(b, Up(n, d), env) && End(b, Up(n, d)) == Up(n, d + e)
    ensures Typed(a + b, n, env) && End(a + b, n) == Up(n, d + e)
  {
    TypedConcat(a, b, n, env);
  }

  lemma PlainOne(it: Item, n: Note, env: Env)
    requires Plain(it) && Ready(n, env) && Takes(it) == 0
    ensures Typed([it], n, env) && End([it], n) == Up(n, Moves(it))
  {
    PlainFits(it, n, 0, env);
    TypedOne(it, n, env);
  }
}
