/** Where the pieces of generated code lie inside a whole instruction sequence. */
module Layout {
  import opened Syntax
  import opened Assembly
  import opened Codegen

  /** `g` is the part of `items` that starts at index `i`. */
  ghost predicate Part(items: seq<Item>, i: nat, g: seq<Item>) {
    i + |g| <= |items| && items[i..i + |g|] == g
  }

  lemma PartFits(items: seq<Item>, i: nat, g: seq<Item>)
    requires Part(items, i, g)
    ensures i + |g| <= |items|
  {
  }

  lemma Split(items: seq<Item>, i: nat, a: seq<Item>, b: seq<Item>)
    requires Part(items, i, a + b)
    ensures Part(items, i, a) && Part(items, i + |a|, b)
  {
    var s := items[i..i + |a + b|];
    assert s[..|a|] == a && s[|a|..] == b;
    assert items[i..i + |a|] == s[..|a|];
    assert items[i + |a|..i + |a| + |b|] == s[|a|..];
  }

  lemma Item0(items: seq<Item>, i: nat, g: seq<Item>, j: nat)
    requires Part(items, i, g) && j < |g|
    ensures items[i + j] == g[j]
  {
    assert items[i..i + |g|][j] == items[i + j];
  }

  lemma LogicAt(items: seq<Item>, i: nat, left: seq<Item>, isAnd: bool, end: nat, right: seq<Item>)
    requires Part(items, i, LogicCode(left, isAnd, end, right))
    ensures var j := i + |left|;
            && |LogicCode(left, isAnd, end, right)| == |left| + |right| + 4
            && Part(items, i, left)
            && items[j] == Op(Dup, 0)
            && items[j + 1] == Ref(if isAnd then JumpIfFalse else JumpIfTrue, end)
            && items[j + 2] == Op(Pop, 0)
            && Part(items, j + 3, right)
            && items[j + 3 + |right|] == Mark(end)
  {
    var mid := [Op(Dup, 0), Ref(if isAnd then JumpIfFalse else JumpIfTrue, end), Op(Pop, 0)];
    Split(items, i, left + mid + right, [Mark(end)]);
    Split(items, i, left + mid, right);
    Split(items, i, left, mid);
    Item0(items, i + |left|, mid, 0);
    Item0(items, i + |left|, mid, 1);
    Item0(items, i + |left|, mid, 2);
    Item0(items, i + |left| + 3 + |right|, [Mark(end)], 0);
  }

  lemma IfAt(items: seq<Item>, i: nat, cond: seq<Item>, thn: seq<Item>, els: seq<Item>, l: nat)
    requires Part(items, i, IfCode(cond, thn, els, l))
    ensures var t := i + |cond| + 1;
            var e := t + |thn| + 2;
            && |IfCode(cond, thn, els, l)| == |cond| + |thn| + |els| + 4
            && Part(items, i, cond)
            && items[t - 1] == Ref(JumpIfFalse, l)
            && Part(items, t, thn)
            && items[e - 2] == Ref(Jump, l + 1)
            && items[e - 1] == Mark(l)
            && Part(items, e, els)
            && items[e + |els|] == Mark(l + 1)
  {
    var t := i + |cond| + 1;
    var e := t + |thn| + 2;
    var g := cond + [Ref(JumpIfFalse, l)];
    var m := [Ref(Jump, l + 1), Mark(l)];
    Split(items, i, g + thn + m + els, [Mark(l + 1)]);
    Split(items, i, g + thn + m, els);
    Split(items, i, g + thn, m);
    Split(items, i, g, thn);
    Split(items, i, cond, [Ref(JumpIfFalse, l)]);
    Item0(items, t - 1, [Ref(JumpIfFalse, l)], 0);
    Two(items, e - 2, m[0], m[1]);
    Item0(items, e + |els|, [Mark(l + 1)], 0);
  }

  lemma WhileAt(items: seq<Item>, i: nat, cond: seq<Item>, body: seq<Item>, l: nat)
    requires Part(items, i, WhileCode(cond, body, l))
    ensures var b := i + 1 + |cond| + 1;
            && |WhileCode(cond, body, l)| == |cond| + |body| + 4
            && items[i] == Mark(l)
            && Part(items, i + 1, cond)
            && items[b - 1] == Ref(JumpIfFalse, l + 1)
            && Part(items, b, body)
            && items[b + |body|] == Ref(Jump, l)
            && items[b + |body| + 1] == Mark(l + 1)
  {
    var b := i + 1 + |cond| + 1;
    var m := [Ref(Jump, l), Mark(l + 1)];
    Split(items, i, [Mark(l)] + cond + [Ref(JumpIfFalse, l + 1)] + body, m);
    Split(items, i, [Mark(l)] + cond + [Ref(JumpIfFalse, l + 1)], body);
    Split(items, i, [Mark(l)] + cond, [Ref(JumpIfFalse, l + 1)]);
    Split(items, i, [Mark(l)], cond);
    Item0(items, i, [Mark(l)], 0);
    Item0(items, b - 1, [Ref(JumpIfFalse, l + 1)], 0);
    Item0(items, b + |body|, m, 0);
    Item0(items, b + |body|, m, 1);
  }

  lemma ForAt(items: seq<Item>, i: nat, test: seq<Item>, step: seq<Item>, body: seq<Item>, l: nat)
    requires Part(items, i, ForCode(test, step, body, l))
    ensures var s := i + 1 + |test| + 2;
            var b := s + |step| + 2;
            && |ForCode(test, step, body, l)| == |test| + |step| + |body| + 7
            && items[i] == Mark(l)
            && Part(items, i + 1, test)
            && items[s - 2] == Ref(Jump, l + 3)
            && items[s - 1] == Mark(l + 2)
            && Part(items, s, step)
            && items[b - 2] == Ref(Jump, l)
            && items[b - 1] == Mark(l + 3)
            && Part(items, b, body)
            && items[b + |body|] == Ref(Jump, l + 2)
            && items[b + |body| + 1] == Mark(l + 1)
  {
    var s := i + 1 + |test| + 2;
    var b := s + |step| + 2;
    var m1, m2, m3 := [Ref(Jump, l + 3), Mark(l + 2)], [Ref(Jump, l), Mark(l + 3)], [Ref(Jump, l + 2), Mark(l + 1)];
    var g := [Mark(l)] + test + m1 + step;
    Split(items, i, g + m2 + body, m3);
    Split(items, i, g + m2, body);
    Split(items, i, g, m2);
    ForHeadAt(items, i, test, step, l);
    Two(items, b - 2, m2[0], m2[1]);
    Two(items, b + |body|, m3[0], m3[1]);
  }

  lemma ForHeadAt(items: seq<Item>, i: nat, test: seq<Item>, step: seq<Item>, l: nat)
    requires Part(items, i, [Mark(l)] + test + [Ref(Jump, l + 3), Mark(l + 2)] + step)
    ensures var s := i + 1 + |test| + 2;
            && items[i] == Mark(l)
            && Part(items, i + 1, test)
            && items[s - 2] == Ref(Jump, l + 3)
            && items[s - 1] == Mark(l + 2)
            && Part(items, s, step)
  {
    var m := [Ref(Jump, l + 3), Mark(l + 2)];
    Split(items, i, [Mark(l)] + test + m, step);
    Split(items, i, [Mark(l)] + test, m);
    Split(items, i, [Mark(l)], test);
    Item0(items, i, [Mark(l)], 0);
    Two(items, i + 1 + |test|, m[0], m[1]);
  }

  lemma Two(items: seq<Item>, i: nat, a: Item, b: Item)
    requires Part(items, i, [a, b])
    ensures i + 2 <= |items| && items[i] == a && items[i + 1] == b
  {
    Item0(items, i, [a, b], 0);
    Item0(items, i, [a, b], 1);
  }

  lemma TryAt(items: seq<Item>, i: nat, body: seq<Item>, bind: seq<Item>, handler: seq<Item>, l: nat)
    requires Part(items, i, TryCode(body, bind, handler, l))
    ensures var c := i + 1 + |body| + 4;
            && |TryCode(body, bind, handler, l)| == |body| + |bind| + |handler| + 6
            && items[i] == Ref(PushTry, l)
            && Part(items, i + 1, body)
            && items[c - 4] == Op(PopTry, 0)
            && items[c - 3] == Ref(Jump, l + 1)
            && items[c - 2] == Mark(l)
            && items[c - 1] == Op(Catch, 0)
            && Part(items, c, bind)
            && Part(items, c + |bind|, handler)
            && items[c + |bind| + |handler|] == Mark(l + 1)
  {
    var c := i + 1 + |body| + 4;
    var m := [Op(PopTry, 0), Ref(Jump, l + 1), Mark(l), Op(Catch, 0)];
    var g := [Ref(PushTry, l)] + body;
    assert |g| == 1 + |body| && |m| == 4;
    Split(items, i, g + m + bind + handler, [Mark(l + 1)]);
    Split(items, i, g + m + bind, handler);
    Split(items, i, g + m, bind);
    Split(items, i, g, m);
    Split(items, i, [Ref(PushTry, l)], body);
    Four(items, c - 4, m[0], m[1], m[2], m[3]);
    Item0(items, i, [Ref(PushTry, l)], 0);
    Item0(items, c + |bind| + |handler|, [Mark(l + 1)], 0);
  }

  lemma Four(items: seq<Item>, i: nat, a: Item, b: Item, c: Item, d: Item)
    requires Part(items, i, [a, b, c, d])
    ensures i + 4 <= |items|
    ensures items[i] == a && items[i + 1] == b && items[i + 2] == c && items[i + 3] == d
  {
    var m := [a, b, c, d];
    Item0(items, i, m, 0);
    Item0(items, i, m, 1);
    Item0(items, i, m, 2);
    Item0(items, i, m, 3);
  }

  /** The constants a piece of code asked for are in the pool from `k` on. */
  ghost predicate Pool(consts: seq<Constant>, k: nat, part: seq<Constant>) {
    k + |part| <= |consts| && consts[k..k + |part|] == part
  }

  lemma PoolSplit(consts: seq<Constant>, k: nat, a: seq<Constant>, b: seq<Constant>)
    requires Pool(consts, k, a + b)
    ensures Pool(consts, k, a) && Pool(consts, k + |a|, b)
  {
    var s := consts[k..k + |a + b|];
    assert s[..|a|] == a && s[|a|..] == b;
    assert consts[k..k + |a|] == s[..|a|];
    assert consts[k + |a|..k + |a| + |b|] == s[|a|..];
  }
}
