/** The bytecode buffer of the compiler: instruction words appended in one pass, with
    forward references to labels patched in place when the label is marked. */
module Bytecode {
  import opened Syntax
  import opened Assembly

  /** A reference to a label that had no address yet: which argument of the word at
      `address` has to be patched. */
  datatype Pending = Pending(lab: nat, address: nat, arity: nat, argno: nat)

  /** The address of a label as far as it is known; 0 until it is marked. */
  function Known(labels: seq<int>, l: nat): nat {
    if l < |labels| && labels[l] >= 0 then labels[l] else 0
  }

  predicate Open(labels: seq<int>, l: nat) {
    l < |labels| && labels[l] < 0
  }

  /** The label an item refers to. */
  function Target(it: Item): Option<nat> {
    match it
    case Ref(_, l) => Some(l)
    case Ref2(_, _, l, _) => Some(l)
    case _ => None
  }

  function Half(it: Item, labels: seq<int>): Instr
    requires !it.Mark?
  {
    match it
    case Op(op, arg) => Instr(op, arg)
    case Op2(op, a, b) => Instr2(op, a, b)
    case Ref(op, l) => Instr(op, Known(labels, l))
    case Ref2(op, argno, l, other) =>
      if argno == 0 then Instr2(op, Known(labels, l), other) else Instr2(op, other, Known(labels, l))
  }

  /** What is pending for one item. */
  function PendingOne(it: Item, labels: seq<int>, address: nat): seq<Pending> {
    if Target(it).Some? && Open(labels, Target(it).value) then [PendingFor(it, address)] else []
  }

  /** What still has to be patched, newest first. */
  function PendingOf(items: seq<Item>, labels: seq<int>): seq<Pending> {
    if items == [] then []
    else
      var n := |items| - 1;
      PendingOne(items[n], labels, Pos(items, n)) + PendingOf(items[..n], labels)
  }

  function PendingFor(it: Item, address: nat): Pending
    requires Target(it).Some?
  {
    if it.Ref? then Pending(it.lab, address, 1, 0) else Pending(it.lab, address, 2, it.argno)
  }

  /** The words of the code emitted so far. */
  function WordsOf(items: seq<Item>, labels: seq<int>): (w: seq<nat>)
    ensures |w| == Pos(items, |items|)
  {
    if items == [] then []
    else
      var n := |items| - 1;
      PosPrefix(items, n, n);
      WordsOf(items[..n], labels) + if items[n].Mark? then [] else [Encode(Half(items[n], labels))]
  }

  lemma {:induction false} PosPrefix(items: seq<Item>, n: nat, i: nat)
    requires i <= n <= |items|
    ensures Pos(items[..n], i) == Pos(items, i)
  {
    if i > 0 {
      PosPrefix(items, n, i - 1);
    }
  }

  /** Assigning the argument of a word that a pending entry describes. */
  function Patch(w: nat, p: Pending, address: nat): nat {
    if p.arity == 1 then SetArg(w, address)
    else if p.argno == 0 then SetArg1(w, address)
    else SetArg2(w, address)
  }

  predicate InRange(ps: seq<Pending>, n: nat) {
    forall i :: 0 <= i < |ps| ==> ps[i].address < n
  }

  /** The patches that marking `l` at `here` makes, in list order. */
  function PatchAll(code: seq<nat>, ps: seq<Pending>, l: nat, here: nat): (r: seq<nat>)
    requires InRange(ps, |code|)
    ensures |r| == |code|
    decreases |ps|
  {
    if ps == [] then code
    else
      var p := ps[0];
      PatchAll(if p.lab == l then code[p.address := Patch(code[p.address], p, here)] else code, ps[1..], l, here)
  }

  /** The entries that stay in the list when `l` is marked. */
  function Keep(ps: seq<Pending>, l: nat): seq<Pending> {
    if ps == [] then []
    else (if ps[0].lab == l then [] else [ps[0]]) + Keep(ps[1..], l)
  }

  /** The items an emission log may contain. */
  predicate GoodItem(it: Item, nlabels: nat) {
    match it
    case Op(_, _) => true
    case Op2(_, _, _) => true
    case Ref(_, l) => l < nlabels
    case Ref2(_, argno, l, _) => l < nlabels && argno < 2
    case Mark(l) => l < nlabels
  }

  ghost predicate LabelsFit(items: seq<Item>, labels: seq<int>) {
    && (forall i :: 0 <= i < |items| ==> GoodItem(items[i], |labels|))
    && MarkedOnce(items)
    && (forall l: nat :: l < |labels| ==> (if labels[l] < 0 then Mark(l) !in items else Mark(l) in items))
    && (forall i :: 0 <= i < |items| && items[i].Mark? ==> labels[items[i].lab] == Pos(items, i))
  }

  // ----- facts about the specification -----

  lemma {:induction false} PendingInRange(items: seq<Item>, labels: seq<int>)
    ensures InRange(PendingOf(items, labels), Pos(items, |items|))
  {
    if items != [] {
      var n := |items| - 1;
      PendingInRange(items[..n], labels);
      PosPrefix(items, n, n);
    }
  }

  /** Patching a word changes the referred address and nothing else. */
  lemma PatchHalf(it: Item, labels: seq<int>, l: nat, here: nat, address: nat)
    requires Target(it) == Some(l) && Open(labels, l) && (it.Ref2? ==> it.argno < 2)
    ensures Patch(Encode(Half(it, labels)), PendingFor(it, address), here) == Encode(Half(it, labels[l := here]))
  {
    hide Word, Word2;
    match it
    case Ref(op, _) => SetWord(OpNum(op), 0, here);
    case Ref2(op, argno, _, other) =>
      if argno == 0 {
        SetWord2(OpNum(op), 0, other, here);
      } else {
        SetWord2(OpNum(op), other, 0, here);
      }
  }

  /** Patches below `|code|` do not touch a word appended after it. */
  lemma {:induction false} PatchPrefix(code: seq<nat>, w: nat, ps: seq<Pending>, l: nat, here: nat)
    requires InRange(ps, |code|)
    ensures PatchAll(code + [w], ps, l, here) == PatchAll(code, ps, l, here) + [w]
    decreases |ps|
  {
    if ps != [] {
      var p := ps[0];
      if p.lab == l {
        var patched := Patch(code[p.address], p, here);
        assert (code + [w])[p.address := patched] == code[p.address := patched] + [w];
        PatchPrefix(code[p.address := patched], w, ps[1..], l, here);
      } else {
        PatchPrefix(code, w, ps[1..], l, here);
      }
    }
  }

  /** Backpatching a label gives the words that knowing its address from the start would
      have given. */
  lemma {:induction false} PatchingIsResolving(items: seq<Item>, labels: seq<int>, l: nat, here: nat)
    requires Open(labels, l) && forall i :: 0 <= i < |items| ==> GoodItem(items[i], |labels|)
    ensures InRange(PendingOf(items, labels), |WordsOf(items, labels)|)
    ensures PatchAll(WordsOf(items, labels), PendingOf(items, labels), l, here) == WordsOf(items, labels[l := here])
    ensures Keep(PendingOf(items, labels), l) == PendingOf(items, labels[l := here])
  {
    PendingInRange(items, labels);
    if items != [] {
      hide Encode, Patch, Half, PatchAll, Keep;
      var n := |items| - 1;
      var front, it := items[..n], items[n];
      PendingInRange(front, labels);
      PatchingIsResolving(front, labels, l, here);
      PosPrefix(items, n, n);
      if !it.Mark? {
        PatchingOne(WordsOf(front, labels), PendingOf(front, labels), it, labels, l, here);
      } else {
        assert WordsOf(items, labels) == WordsOf(front, labels);
        assert WordsOf(items, labels[l := here]) == WordsOf(front, labels[l := here]);
        assert PendingOf(items, labels) == PendingOf(front, labels);
        assert PendingOf(items, labels[l := here]) == PendingOf(front, labels[l := here]);
      }
    }
  }

  lemma PatchingOne(w: seq<nat>, ps: seq<Pending>, it: Item, labels: seq<int>, l: nat, here: nat)
    requires Open(labels, l) && GoodItem(it, |labels|) && !it.Mark? && InRange(ps, |w|)
    ensures var ps1 := PendingOne(it, labels, |w|) + ps;
            && InRange(ps1, |w| + 1)
            && PatchAll(w + [Encode(Half(it, labels))], ps1, l, here)
               == PatchAll(w, ps, l, here) + [Encode(Half(it, labels[l := here]))]
            && Keep(ps1, l) == PendingOne(it, labels[l := here], |w|) + Keep(ps, l)
  {
    hide Encode, Patch, Half;
    var last, t := Encode(Half(it, labels)), Target(it);
    var one := PendingOne(it, labels, |w|);
    if t == Some(l) {
      var p := PendingFor(it, |w|);
      PatchHalf(it, labels, l, here, |w|);
      assert (w + [last])[|w| := Patch(last, p, here)] == w + [Patch(last, p, here)];
      assert (one + ps)[0] == p && (one + ps)[1..] == ps;
      PatchPrefix(w, Patch(last, p, here), ps, l, here);
    } else {
      PatchPrefix(w, last, ps, l, here);
      OtherHalf(it, labels, l, here);
      if one == [] {
        assert one + ps == ps;
      } else {
        assert (one + ps)[0] == PendingFor(it, |w|) && (one + ps)[1..] == ps;
      }
    }
  }

  lemma OtherHalf(it: Item, labels: seq<int>, l: nat, here: nat)
    requires !it.Mark? && Target(it) != Some(l) && l < |labels|
    ensures Half(it, labels[l := here]) == Half(it, labels)
  {
  }

  lemma MarkItem(items: seq<Item>, labels: seq<int>, l: nat)
    requires LabelsFit(items, labels) && Open(labels, l)
    ensures var here := Pos(items, |items|);
            var items1, labels1 := items + [Mark(l)], labels[l := here];
            && LabelsFit(items1, labels1)
            && WordsOf(items1, labels1) == WordsOf(items, labels1)
            && PendingOf(items1, labels1) == PendingOf(items, labels1)
            && InRange(PendingOf(items, labels), |WordsOf(items, labels)|)
            && PatchAll(WordsOf(items, labels), PendingOf(items, labels), l, here) == WordsOf(items, labels1)
            && Keep(PendingOf(items, labels), l) == PendingOf(items, labels1)
  {
    hide PatchAll, Keep, Patch, Encode, Half;
    var here := Pos(items, |items|);
    var items1 := items + [Mark(l)];
    PatchingIsResolving(items, labels, l, here);
    MarkFits(items, labels, l);
    assert items1[..|items1| - 1] == items;
  }

  lemma MarkFits(items: seq<Item>, labels: seq<int>, l: nat)
    requires LabelsFit(items, labels) && Open(labels, l)
    ensures LabelsFit(items + [Mark(l)], labels[l := Pos(items, |items|)])
  {
    var here := Pos(items, |items|);
    var items1 := items + [Mark(l)];
    forall i | 0 <= i < |items1|
      ensures Pos(items1, i) == if i < |items| then Pos(items, i) else here
    {
      PosPrefix(items1, |items|, i);
      assert items1[..|items|] == items;
      PosPrefix(items, |items|, i);
    }
  }

  lemma AppendItem(items: seq<Item>, labels: seq<int>, it: Item)
    requires LabelsFit(items, labels) && !it.Mark? && GoodItem(it, |labels|)
    ensures var items1 := items + [it];
            && LabelsFit(items1, labels)
            && WordsOf(items1, labels) == WordsOf(items, labels) + [Encode(Half(it, labels))]
            && PendingOf(items1, labels)
               == PendingOne(it, labels, Pos(items, |items|)) + PendingOf(items, labels)
  {
    hide Encode, Half, Patch, LabelsFit, PendingOne;
    var items1 := items + [it];
    assert items1[..|items1| - 1] == items;
    PosPrefix(items1, |items|, |items|);
    AppendFits(items, labels, it);
  }

  lemma AppendFits(items: seq<Item>, labels: seq<int>, it: Item)
    requires LabelsFit(items, labels) && !it.Mark? && GoodItem(it, |labels|)
    ensures LabelsFit(items + [it], labels)
  {
    hide WordsOf, PendingOf, Pos;
    var items1 := items + [it];
    assert items1[..|items|] == items;
    forall i | 0 <= i <= |items|
      ensures Pos(items1, i) == Pos(items, i)
    {
      PosPrefix(items1, |items|, i);
    }
  }

  lemma {:induction false} OneMoreLabel(items: seq<Item>, labels: seq<int>)
    requires LabelsFit(items, labels)
    ensures LabelsFit(items, labels + [-1])
    ensures WordsOf(items, labels + [-1]) == WordsOf(items, labels)
    ensures PendingOf(items, labels + [-1]) == PendingOf(items, labels)
  {
    SameKnown(items, labels, labels + [-1]);
    forall i | 0 <= i < |items|
      ensures items[i] != Mark(|labels|)
    {
      assert GoodItem(items[i], |labels|);
    }
  }

  lemma {:induction false} SameKnown(items: seq<Item>, labels: seq<int>, labels1: seq<int>)
    requires |labels| <= |labels1| && labels1[..|labels|] == labels
    requires forall i :: 0 <= i < |items| ==> GoodItem(items[i], |labels|)
    ensures WordsOf(items, labels1) == WordsOf(items, labels)
    ensures PendingOf(items, labels1) == PendingOf(items, labels)
  {
    hide Encode, Half, PendingOne;
    if items != [] {
      var n := |items| - 1;
      SameKnown(items[..n], labels, labels1);
      SameItem(items[n], labels, labels1, Pos(items, n));
    }
  }

  lemma SameItem(it: Item, labels: seq<int>, labels1: seq<int>, address: nat)
    requires |labels| <= |labels1| && labels1[..|labels|] == labels && GoodItem(it, |labels|)
    ensures !it.Mark? ==> Half(it, labels1) == Half(it, labels)
    ensures PendingOne(it, labels1, address) == PendingOne(it, labels, address)
  {
    assert forall l: nat :: l < |labels| ==> labels1[l] == labels[l];
  }

  lemma {:induction false} UpdateItem(items: seq<Item>, labels: seq<int>, i: nat, op: Opcode, arg: nat)
    requires LabelsFit(items, labels) && i < |items| && items[i].Op?
    ensures var items1 := items[i := Op(op, arg)];
            && LabelsFit(items1, labels)
            && Pos(items, i) < |WordsOf(items, labels)|
            && WordsOf(items1, labels) == WordsOf(items, labels)[Pos(items, i) := Word(OpNum(op), arg)]
            && PendingOf(items1, labels) == PendingOf(items, labels)
  {
    var items1 := items[i := Op(op, arg)];
    forall j | 0 <= j <= |items|
      ensures Pos(items1, j) == Pos(items, j)
    {
      SamePos(items, i, op, arg, j);
    }
    assert forall l :: Mark(l) in items1 <==> Mark(l) in items by {
      forall l
        ensures Mark(l) in items1 <==> Mark(l) in items
      {
        if Mark(l) in items {
          var j :| 0 <= j < |items| && items[j] == Mark(l);
          assert items1[j] == Mark(l);
        }
      }
    }
    UpdateWords(items, labels, i, op, arg);
  }

  lemma {:induction false} SamePos(items: seq<Item>, i: nat, op: Opcode, arg: nat, j: nat)
    requires i < |items| && items[i].Op? && j <= |items|
    ensures Pos(items[i := Op(op, arg)], j) == Pos(items, j)
  {
    if j > 0 {
      SamePos(items, i, op, arg, j - 1);
    }
  }

  lemma {:induction false} UpdateWords(items: seq<Item>, labels: seq<int>, i: nat, op: Opcode, arg: nat)
    requires i < |items| && items[i].Op?
    ensures var items1 := items[i := Op(op, arg)];
            && Pos(items, i) < |WordsOf(items, labels)|
            && WordsOf(items1, labels) == WordsOf(items, labels)[Pos(items, i) := Word(OpNum(op), arg)]
            && PendingOf(items1, labels) == PendingOf(items, labels)
  {
    hide Word, Encode, Half, PendingOne, OpNum, WordsOf, PendingOf, Pos;
    var n := |items| - 1;
    var items1 := items[i := Op(op, arg)];
    PosPrefix(items, n, i);
    LastWord(items, labels);
    LastWord(items1, labels);
    SamePos(items, i, op, arg, n);
    if i < n {
      UpdateWords(items[..n], labels, i, op, arg);
      assert items1[..n] == items[..n][i := Op(op, arg)];
    } else {
      assert items1[..n] == items[..n];
      EncodeOp(op, arg, labels);
      NoTarget(items[n], Op(op, arg), labels, Pos(items, n));
    }
  }

  lemma LastWord(items: seq<Item>, labels: seq<int>)
    requires items != []
    ensures var n := |items| - 1;
            && WordsOf(items, labels) == WordsOf(items[..n], labels) + (if items[n].Mark? then [] else [Encode(Half(items[n], labels))])
            && PendingOf(items, labels) == PendingOne(items[n], labels, Pos(items, n)) + PendingOf(items[..n], labels)
            && |WordsOf(items[..n], labels)| == Pos(items, n)
  {
    PosPrefix(items, |items| - 1, |items| - 1);
  }

  lemma NoTarget(a: Item, b: Item, labels: seq<int>, address: nat)
    requires a.Op? && b.Op?
    ensures PendingOne(a, labels, address) == PendingOne(b, labels, address) == []
  {
  }

  lemma EncodeOp(op: Opcode, arg: nat, labels: seq<int>)
    ensures Encode(Half(Op(op, arg), labels)) == Word(OpNum(op), arg)
  {
  }

  /** Nothing pending means that every label referred to has been marked. */
  lemma {:induction false} NonePending(items: seq<Item>, labels: seq<int>)
    requires forall i :: 0 <= i < |items| ==> GoodItem(items[i], |labels|)
    ensures PendingOf(items, labels) == []
       <==> forall i :: 0 <= i < |items| && Target(items[i]).Some? ==> !Open(labels, Target(items[i]).value)
  {
    if items != [] {
      var n := |items| - 1;
      NonePending(items[..n], labels);
      if PendingOf(items, labels) == [] {
        forall i | 0 <= i < |items| && Target(items[i]).Some?
          ensures !Open(labels, Target(items[i]).value)
        {
          if i < n {
            assert items[..n][i] == items[i];
          }
        }
      } else if PendingOf(items[..n], labels) != [] {
        var i :| 0 <= i < n && Target(items[..n][i]).Some? && Open(labels, Target(items[..n][i]).value);
        assert items[i] == items[..n][i];
      } else {
        assert Target(items[n]).Some?;
      }
    }
  }

  /** With every label known the words are those of the two-pass assembly. */
  lemma {:induction false} Assembled(items: seq<Item>, labels: seq<int>, n: nat)
    requires LabelsFit(items, labels) && n <= |items|
    requires forall i :: 0 <= i < |items| && Target(items[i]).Some? ==> !Open(labels, Target(items[i]).value)
    ensures |WordsOf(items[..n], labels)| == |EmitUpTo(items, n)|
    ensures forall i :: 0 <= i < |EmitUpTo(items, n)| ==> WordsOf(items[..n], labels)[i] == Encode(EmitUpTo(items, n)[i])
  {
    hide Encode, Half, PendingOf, LabelsFit, Pos;
    PosPrefix(items, n, n);
    if n > 0 {
      Assembled(items, labels, n - 1);
      LastWord(items[..n], labels);
      assert items[..n][..n - 1] == items[..n - 1];
      GoodAt(items, labels, n - 1);
      hide WordsOf;
      if !items[n - 1].Mark? {
        KnownIsAddr(items, labels, items[n - 1]);
      }
    }
  }

  lemma GoodAt(items: seq<Item>, labels: seq<int>, i: nat)
    requires LabelsFit(items, labels) && i < |items|
    ensures GoodItem(items[i], |labels|)
  {
  }

  lemma KnownIsAddr(items: seq<Item>, labels: seq<int>, it: Item)
    requires LabelsFit(items, labels) && !it.Mark? && GoodItem(it, |labels|)
    requires Target(it).Some? ==> !Open(labels, Target(it).value)
    ensures Half(it, labels) == ResolveItem(it, items)
  {
    if Target(it).Some? {
      var l := Target(it).value;
      assert Mark(l) in items;
      var j := MarkIndex(items, l).value;
      assert labels[items[j].lab] == Pos(items, j);
    }
  }

  class Buffer {
    var code: seq<nat>
    var labels: seq<int>
    var pending: seq<Pending>
    /** Everything emitted so far, with its labels. */
    ghost var items: seq<Item>

    ghost predicate Valid()
      reads this
    {
      && LabelsFit(items, labels)
      && code == WordsOf(items, labels)
      && pending == PendingOf(items, labels)
    }

    constructor ()
      ensures Valid() && items == [] && labels == []
    {
      code, labels, pending := [], [], [];
      items := [];
    }

    /** A new label, not marked yet. */
    method Label() returns (l: nat)
      requires Valid()
      modifies this
      ensures Valid() && items == old(items)
      ensures l == |old(labels)| && labels == old(labels) + [-1]
    {
      OneMoreLabel(items, labels);
      labels := labels + [-1];
      l := |labels| - 1;
    }

    method Push(w: nat)
      modifies this`code
      ensures code == old(code) + [w]
    {
      code := code + [w];
    }

    /** The address to put in the next word; a label without address is remembered. */
    method AddressOf(l: nat, arity: nat, argno: nat) returns (value: nat)
      requires l < |labels|
      modifies this`pending
      ensures value == Known(labels, l)
      ensures pending == (if Open(labels, l) then [Pending(l, |code|, arity, argno)] else []) + old(pending)
    {
      if labels[l] < 0 {
        value := 0;
        pending := [Pending(l, |code|, arity, argno)] + pending;
      } else {
        value := labels[l];
      }
    }

    method Append(op: Opcode, arg: nat)
      requires Valid()
      modifies this
      ensures Valid() && labels == old(labels)
      ensures items == old(items) + [Op(op, arg)]
    {
      hide LabelsFit, PendingOf, WordsOf, Encode, Half, Word;
      AppendItem(items, labels, Op(op, arg));
      EncodeOp(op, arg, labels);
      NoTarget(Op(op, arg), Op(op, arg), labels, |code|);
      Push(Word(OpNum(op), arg));
      items := items + [Op(op, arg)];
    }

    method AppendRef(op: Opcode, l: nat)
      requires Valid() && l < |labels|
      modifies this
      ensures Valid() && labels == old(labels)
      ensures items == old(items) + [Ref(op, l)]
    {
      AppendItem(items, labels, Ref(op, l));
      var address := AddressOf(l, 1, 0);
      Push(Word(OpNum(op), address));
      items := items + [Ref(op, l)];
    }

    /** A two-argument instruction without label. */
    method AppendBoth(op: Opcode, arg1: nat, arg2: nat)
      requires Valid()
      modifies this
      ensures Valid() && labels == old(labels)
      ensures items == old(items) + [Op2(op, arg1, arg2)]
    {
      hide LabelsFit, PendingOf, WordsOf, Word2;
      AppendItem(items, labels, Op2(op, arg1, arg2));
      Push(Word2(OpNum(op), arg1, arg2));
      items := items + [Op2(op, arg1, arg2)];
    }

    /** A two-argument instruction with a label as its argument `argno`. */
    method AppendRef2(op: Opcode, argno: nat, l: nat, other: nat)
      requires Valid() && l < |labels| && argno < 2
      modifies this
      ensures Valid() && labels == old(labels)
      ensures items == old(items) + [Ref2(op, argno, l, other)]
    {
      AppendItem(items, labels, Ref2(op, argno, l, other));
      var address := AddressOf(l, 2, argno);
      Push(if argno == 0 then Word2(OpNum(op), address, other) else Word2(OpNum(op), other, address));
      items := items + [Ref2(op, argno, l, other)];
    }

    /** Patches every word that waits for the label, and forgets that they did. */
    method PatchPending(l: nat, here: nat)
      requires InRange(pending, |code|)
      modifies this`code, this`pending
      ensures code == PatchAll(old(code), old(pending), l, here) && pending == Keep(old(pending), l)
    {
      hide Patch;
      var kept, rest: seq<Pending> := [], pending;
      while rest != []
        invariant InRange(rest, |code|)
        invariant PatchAll(code, rest, l, here) == PatchAll(old(code), old(pending), l, here)
        invariant kept + Keep(rest, l) == Keep(old(pending), l)
        decreases |rest|
      {
        var p := rest[0];
        if p.lab == l {
          code := code[p.address := Patch(code[p.address], p, here)];
        } else {
          kept := kept + [p];
        }
        rest := rest[1..];
      }
      pending := kept;
    }

    /** Gives a label the current address. */
    method MarkLabel(l: nat)
      requires Valid() && Open(labels, l)
      modifies this
      ensures Valid() && labels == old(labels)[l := |code|]
      ensures items == old(items) + [Mark(l)]
    {
      hide LabelsFit, PendingOf, WordsOf, PatchAll, Keep;
      PendingInRange(items, labels);
      MarkItem(items, labels, l);
      labels := labels[l := |code|];
      PatchPending(l, |code|);
      items := items + [Mark(l)];
    }

    /** Overwrites an instruction emitted earlier, known not to refer to a label. */
    method Update(address: nat, op: Opcode, arg: nat, ghost i: nat)
      requires Valid() && i < |items| && items[i].Op? && address == Pos(items, i)
      modifies this
      ensures Valid() && labels == old(labels)
      ensures items == old(items)[i := Op(op, arg)]
    {
      UpdateItem(items, labels, i, op, arg);
      code := code[address := Word(OpNum(op), arg)];
      items := items[i := Op(op, arg)];
    }

    /** Fails exactly when some label was referred to and never marked; otherwise the code
        is the two-pass assembly of everything emitted. */
    method Finalize() returns (ok: bool, result: seq<nat>)
      requires Valid()
      ensures ok <==> forall i :: 0 <= i < |items| && Target(items[i]).Some? ==> Mark(Target(items[i]).value) in items
      ensures ok ==> result == code && |result| == |Assemble(items)|
      ensures ok ==> forall i :: 0 <= i < |result| ==> result[i] == Encode(Assemble(items)[i])
    {
      NonePending(items, labels);
      ok, result := pending == [], [];
      if ok {
        Assembled(items, labels, |items|);
        assert items[..|items|] == items;
        result := code;
      }
    }
  }

  // ----- any use of the buffer -----

  datatype Request = AskLabel | Write(it: Item)

  function LabelsIn(run: seq<Request>): nat {
    if run == [] then 0 else LabelsIn(run[..|run| - 1]) + if run[|run| - 1].AskLabel? then 1 else 0
  }

  function EmittedBy(run: seq<Request>): seq<Item> {
    if run == [] then []
    else
      var n := |run| - 1;
      EmittedBy(run[..n]) + if run[n].Write? then [run[n].it] else []
  }

  /** Labels are asked for before they are used, and marked at most once. */
  predicate WellUsed(run: seq<Request>) {
    run != [] ==>
      var n := |run| - 1;
      && WellUsed(run[..n])
      && (run[n].Write? ==>
            && GoodItem(run[n].it, LabelsIn(run[..n]))
            && (run[n].it.Mark? ==> run[n].it !in EmittedBy(run[..n])))
  }

  /** Patching in one pass is assembling in two: whatever order labels are asked for,
      referred to and marked in, finishing succeeds exactly when every label referred to
      was marked, and the words are then those of the two-pass assembly. */
  method AssembleInOnePass(run: seq<Request>) returns (ok: bool, words: seq<nat>)
    requires WellUsed(run)
    ensures ok <==> forall i :: 0 <= i < |EmittedBy(run)| && Target(EmittedBy(run)[i]).Some? ==> Mark(Target(EmittedBy(run)[i]).value) in EmittedBy(run)
    ensures ok ==> |words| == |Assemble(EmittedBy(run))|
    ensures ok ==> forall i :: 0 <= i < |words| ==> words[i] == Encode(Assemble(EmittedBy(run))[i])
  {
    hide LabelsFit, PendingOf, WordsOf, Encode;
    var b := new Buffer();
    assert run[..0] == [];
    for n := 0 to |run|
      invariant fresh(b) && b.Valid() && b.items == EmittedBy(run[..n]) && |b.labels| == LabelsIn(run[..n])
      invariant WellUsed(run[..n])
    {
      UsedBefore(run, n);
      match run[n] {
        case AskLabel =>
          var _ := b.Label();
        case Write(it) =>
          if it.Mark? {
            MarkIsOpen(b.items, b.labels, it);
          }
          match it {
            case Op(op, arg) => b.Append(op, arg);
            case Op2(op, a1, a2) => b.AppendBoth(op, a1, a2);
            case Ref(op, l) => b.AppendRef(op, l);
            case Ref2(op, argno, l, other) => b.AppendRef2(op, argno, l, other);
            case Mark(l) => b.MarkLabel(l);
          }
      }
      assert run[..n + 1][..n] == run[..n];
    }
    assert run[..|run|] == run;
    ok, words := b.Finalize();
  }

  lemma {:induction false} UsedBefore(run: seq<Request>, n: nat)
    requires WellUsed(run) && n < |run|
    ensures WellUsed(run[..n]) && WellUsed(run[..n + 1])
    ensures run[n].Write? ==> GoodItem(run[n].it, LabelsIn(run[..n])) && (run[n].it.Mark? ==> run[n].it !in EmittedBy(run[..n]))
    decreases |run|
  {
    if n + 1 < |run| {
      UsedBefore(run[..|run| - 1], n);
      assert run[..|run| - 1][..n] == run[..n] && run[..|run| - 1][..n + 1] == run[..n + 1];
    } else {
      assert run[..n + 1] == run;
    }
  }

  lemma MarkIsOpen(items: seq<Item>, labels: seq<int>, it: Item)
    requires LabelsFit(items, labels) && GoodItem(it, |labels|) && it !in items
    ensures it.Mark? ==> Open(labels, it.lab)
  {
  }
}
