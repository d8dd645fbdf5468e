/** Values as text: arrays and structs print their elements, and an object that is being
    printed already is cut short.  The buffer of each object is allocated first and then
    filled from left to right. */
module Printing {
  import opened Syntax

  type Id = nat

  /** A value is an atom with a text of its own or a reference to an object. */
  datatype Val = Atom(text: string) | Ref(id: Id)

  datatype Obj = Array(elems: seq<Val>) | Struct(name: string, fields: seq<(string, Val)>)

  type Heap = map<Id, Obj>

  function Parts(o: Obj): seq<Val> {
    match o
    case Array(elems) => elems
    case Struct(_, fields) => seq(|fields|, i requires 0 <= i < |fields| => fields[i].1)
  }

  /** Every reference leads to an object. */
  ghost predicate Closed(h: Heap) {
    forall id, i :: id in h && 0 <= i < |Parts(h[id])| && Parts(h[id])[i].Ref? ==> Parts(h[id])[i].id in h
  }

  predicate Known(h: Heap, v: Val) { v.Ref? ==> v.id in h }

  // ----- the text -----

  function Join(texts: seq<string>): string {
    if texts == [] then ""
    else if |texts| == 1 then texts[0]
    else Join(texts[..|texts| - 1]) + ", " + texts[|texts| - 1]
  }

  function Labelled(fields: seq<(string, Val)>, texts: seq<string>): seq<string>
    requires |fields| == |texts|
  {
    seq(|fields|, i requires 0 <= i < |fields| => fields[i].0 + " = " + texts[i])
  }

  function Whole(o: Obj, texts: seq<string>): string
    requires |texts| == |Parts(o)|
  {
    match o
    case Array(_) => "[" + Join(texts) + "]"
    case Struct(name, fields) => name + "{" + Join(Labelled(fields, texts)) + "}"
  }

  function Cut(o: Obj): string {
    match o
    case Array(_) => "[...]"
    case Struct(name, _) => name + "{...}"
  }

  /** The text of a value while the objects in `open` are being printed. */
  function Show(h: Heap, open: seq<Id>, v: Val): string
    requires Closed(h) && Known(h, v)
    decreases h.Keys - Set(open), 1, 0
  {
    match v
    case Atom(text) => text
    case Ref(id) =>
      if id in open then Cut(h[id])
      else
        assert Set([id] + open) == Set(open) + {id};
        Whole(h[id], ShowAll(h, [id] + open, Parts(h[id])))
  }

  function ShowAll(h: Heap, open: seq<Id>, vs: seq<Val>): (texts: seq<string>)
    requires Closed(h) && forall i :: 0 <= i < |vs| ==> Known(h, vs[i])
    ensures |texts| == |vs|
    decreases h.Keys - Set(open), 2, |vs|
  {
    if vs == [] then []
    else ShowAll(h, open, vs[..|vs| - 1]) + [Show(h, open, vs[|vs| - 1])]
  }

  function Set(s: seq<Id>): set<Id> { set x | x in s }

  lemma {:induction false} ShowAllAt(h: Heap, open: seq<Id>, vs: seq<Val>, i: nat)
    requires Closed(h) && (forall j :: 0 <= j < |vs| ==> Known(h, vs[j])) && i < |vs|
    ensures ShowAll(h, open, vs)[i] == Show(h, open, vs[i])
  {
    if i < |vs| - 1 {
      ShowAllAt(h, open, vs[..|vs| - 1], i);
    }
  }

  // ----- what stands where -----

  ghost predicate At(s: string, at: nat, part: string) {
    at + |part| <= |s| && s[at..at + |part|] == part
  }

  /** Where the `i`th of some texts begins, when two characters are between each two. */
  function Place(texts: seq<string>, i: nat): nat
    requires i <= |texts|
  {
    if i == 0 then 0 else Place(texts, i - 1) + |texts[i - 1]| + 2
  }

  /** Brackets around the texts, a comma and a space between them. */
  ghost predicate ArrayText(s: string, texts: seq<string>) {
    && |s| >= 2 && s[0] == '[' && s[|s| - 1] == ']' && (texts == [] ==> |s| == 2)
    && forall i :: 0 <= i < |texts| ==> ElementAt(s, texts, i)
  }

  ghost predicate ElementAt(s: string, texts: seq<string>, i: nat)
    requires i < |texts|
  {
    var start := 1 + Place(texts, i);
    var end := start + |texts[i]|;
    At(s, start, texts[i]) && if i == |texts| - 1 then end == |s| - 1 else At(s, end, ", ")
  }

  /** Where the `i`th field begins, behind the brace. */
  function FieldPlace(labels: seq<string>, texts: seq<string>, i: nat): nat
    requires |labels| == |texts| && i <= |texts|
  {
    if i == 0 then 0 else FieldPlace(labels, texts, i - 1) + |labels[i - 1]| + 3 + |texts[i - 1]| + 2
  }

  /** The name, and in braces the fields: the name of each, an equals sign between spaces
      and its text; a comma and a space between them. */
  ghost predicate StructText(s: string, name: string, labels: seq<string>, texts: seq<string>) {
    && |labels| == |texts| && |s| >= |name| + 2
    && At(s, 0, name) && s[|name|] == '{' && s[|s| - 1] == '}' && (texts == [] ==> |s| == |name| + 2)
    && forall i :: 0 <= i < |texts| ==> FieldAt(s, name, labels, texts, i)
  }

  ghost predicate FieldAt(s: string, name: string, labels: seq<string>, texts: seq<string>, i: nat)
    requires |labels| == |texts| && i < |texts|
  {
    var start := |name| + 1 + FieldPlace(labels, texts, i);
    var value := start + |labels[i]| + 3;
    var end := value + |texts[i]|;
    && At(s, start, labels[i]) && At(s, start + |labels[i]|, " = ") && At(s, value, texts[i])
    && if i == |texts| - 1 then end == |s| - 1 else At(s, end, ", ")
  }

  function Labels(fields: seq<(string, Val)>): seq<string> {
    seq(|fields|, i requires 0 <= i < |fields| => fields[i].0)
  }

  /** The elements of an array, and the values of a struct's fields, lead to objects. */
  ghost predicate Inside(h: Heap, o: Obj) {
    match o
    case Array(elems) => forall i :: 0 <= i < |elems| ==> Known(h, elems[i])
    case Struct(_, fields) => forall i :: 0 <= i < |fields| ==> Known(h, fields[i].1)
  }

  /** The text of a value while the objects in `open` are being printed. */
  ghost predicate Printed(h: Heap, open: seq<Id>, v: Val, s: string)
    requires Closed(h) && Known(h, v)
  {
    match v
    case Atom(text) => s == text
    case Ref(id) =>
      Inside(h, h[id]) &&
      match h[id]
      case Array(elems) =>
        if id in open then s == "[...]"
        else ArrayText(s, seq(|elems|, i requires 0 <= i < |elems| => Show(h, [id] + open, elems[i])))
      case Struct(name, fields) =>
        if id in open then s == name + "{...}"
        else StructText(s, name, Labels(fields), seq(|fields|, i requires 0 <= i < |fields| => Show(h, [id] + open, fields[i].1)))
  }

  lemma AtInside(before: string, s: string, after: string, at: nat, part: string)
    requires At(s, at, part)
    ensures At(before + s + after, |before| + at, part)
  {
    assert (before + s + after)[|before| + at..|before| + at + |part|] == s[at..at + |part|];
  }

  lemma AtMiddle(before: string, part: string, after: string)
    ensures At(before + part + after, |before|, part)
  {
  }

  lemma {:induction false} PlacePrefix(texts: seq<string>, n: nat, i: nat)
    requires i <= n <= |texts|
    ensures Place(texts[..n], i) == Place(texts, i)
    decreases i
  {
    if i > 0 {
      PlacePrefix(texts, n, i - 1);
    }
  }

  lemma {:induction false} JoinLength(texts: seq<string>)
    ensures Place(texts, |texts|) == if texts == [] then 0 else |Join(texts)| + 2
    decreases |texts|
  {
    if texts != [] {
      var n := |texts| - 1;
      JoinLength(texts[..n]);
      PlacePrefix(texts, n, n);
    }
  }

  /** Where a text stands in the joined texts, and what follows it. */
  ghost predicate JoinedRight(s: string, texts: seq<string>, i: nat)
    requires i < |texts|
  {
    var end := Place(texts, i) + |texts[i]|;
    At(s, Place(texts, i), texts[i]) && if i == |texts| - 1 then end == |s| else At(s, end, ", ")
  }

  lemma {:induction false} JoinedAt(texts: seq<string>, i: nat)
    requires i < |texts|
    ensures JoinedRight(Join(texts), texts, i)
    decreases |texts|
  {
    hide Place, JoinedRight, At;
    var n := |texts| - 1;
    if n == 0 {
      OnlyOne(texts);
    } else if i == n {
      LastOne(texts);
    } else {
      JoinedAt(texts[..n], i);
      EarlierOne(texts, i);
    }
  }

  lemma OnlyOne(texts: seq<string>)
    requires |texts| == 1
    ensures JoinedRight(Join(texts), texts, 0)
  {
  }

  lemma LastOne(texts: seq<string>)
    requires |texts| > 1
    ensures JoinedRight(Join(texts), texts, |texts| - 1)
  {
    hide Place, At;
    var n := |texts| - 1;
    var front := Join(texts[..n]);
    JoinLength(texts[..n]);
    PlacePrefix(texts, n, n);
    AtMiddle(front + ", ", texts[n], "");
    assert front + ", " + texts[n] + "" == Join(texts);
  }

  lemma EarlierOne(texts: seq<string>, i: nat)
    requires i < |texts| - 1 && JoinedRight(Join(texts[..|texts| - 1]), texts[..|texts| - 1], i)
    ensures JoinedRight(Join(texts), texts, i)
  {
    hide Place, At, Join;
    var n := |texts| - 1;
    var front := Join(texts[..n]);
    JoinMore(texts);
    PlacePrefix(texts, n, i);
    assert "" + front + (", " + texts[n]) == Join(texts);
    AtInside("", front, ", " + texts[n], Place(texts, i), texts[i]);
    if i == n - 1 {
      AtMiddle(front, ", ", texts[n]);
    } else {
      AtInside("", front, ", " + texts[n], Place(texts, i) + |texts[i]|, ", ");
    }
  }

  lemma JoinMore(texts: seq<string>)
    requires |texts| > 1
    ensures Join(texts) == Join(texts[..|texts| - 1]) + ", " + texts[|texts| - 1]
  {
  }

  lemma PlaceZero(texts: seq<string>)
    ensures Place(texts, 0) == 0
  {
  }

  lemma ArrayIsText(texts: seq<string>)
    ensures ArrayText("[" + Join(texts) + "]", texts)
  {
    hide Place, Join;
    var s := "[" + Join(texts) + "]";
    JoinLength(texts);
    PlaceZero(texts);
    assert texts == [] ==> Join(texts) == "" by { JoinEmpty(texts); }
    forall i | 0 <= i < |texts|
      ensures ElementAt(s, texts, i)
    {
      JoinedAt(texts, i);
      AtInside("[", Join(texts), "]", Place(texts, i), texts[i]);
      if i < |texts| - 1 {
        AtInside("[", Join(texts), "]", Place(texts, i) + |texts[i]|, ", ");
      }
    }
  }

  lemma JoinEmpty(texts: seq<string>)
    ensures texts == [] ==> Join(texts) == ""
  {
  }

  lemma {:induction false} FieldPlaceIs(fields: seq<(string, Val)>, texts: seq<string>, i: nat)
    requires |fields| == |texts| && i <= |texts|
    ensures FieldPlace(Labels(fields), texts, i) == Place(Labelled(fields, texts), i)
    decreases i
  {
    if i > 0 {
      FieldPlaceIs(fields, texts, i - 1);
    }
  }

  lemma StructIsText(name: string, fields: seq<(string, Val)>, texts: seq<string>)
    requires |fields| == |texts|
    ensures StructText(name + "{" + Join(Labelled(fields, texts)) + "}", name, Labels(fields), texts)
  {
    hide Place, Join, FieldPlace, FieldAt;
    var lines := Labelled(fields, texts);
    var before, s := name + "{", name + "{" + Join(lines) + "}";
    JoinEmpty(lines);
    assert s[0..|name|] == name;
    forall i | 0 <= i < |texts|
      ensures FieldAt(s, name, Labels(fields), texts, i)
    {
      FieldStands(name, fields, texts, i);
    }
  }

  lemma FieldStands(name: string, fields: seq<(string, Val)>, texts: seq<string>, i: nat)
    requires |fields| == |texts| && i < |texts|
    ensures FieldAt(name + "{" + Join(Labelled(fields, texts)) + "}", name, Labels(fields), texts, i)
  {
    hide Place, Join, FieldPlace, At;
    var lines := Labelled(fields, texts);
    var before, s := name + "{", name + "{" + Join(lines) + "}";
    JoinedAt(lines, i);
    FieldPlaceIs(fields, texts, i);
    AtInside(before, Join(lines), "}", Place(lines, i), lines[i]);
    LineParts(s, |before| + Place(lines, i), fields[i].0, texts[i]);
    if i < |texts| - 1 {
      AtInside(before, Join(lines), "}", Place(lines, i) + |lines[i]|, ", ");
    }
  }

  lemma LineParts(s: string, at: nat, name: string, text: string)
    requires At(s, at, name + " = " + text)
    ensures At(s, at, name) && At(s, at + |name|, " = ") && At(s, at + |name| + 3, text)
  {
    var line := s[at..at + |name| + 3 + |text|];
    assert line == name + " = " + text;
    Within(s, at, at + |line|, 0, |name|);
    Within(s, at, at + |line|, |name|, |name| + 3);
    Within(s, at, at + |line|, |name| + 3, |line|);
    assert line[|name|..|name| + 3] == " = ";
  }

  lemma Within(s: string, a: nat, b: nat, c: nat, d: nat)
    requires a <= b <= |s| && c <= d <= b - a
    ensures s[a..b][c..d] == s[a + c..a + d]
  {
    var t := s[a..b];
    forall i | 0 <= i < d - c
      ensures t[c..d][i] == s[a + c..a + d][i]
    {
      assert t[c + i] == s[a + (c + i)];
    }
  }

  lemma ClosedInside(h: Heap, id: Id)
    requires Closed(h) && id in h
    ensures Inside(h, h[id])
  {
    var parts := Parts(h[id]);
    match h[id]
    case Array(elems) => assert forall i :: 0 <= i < |parts| ==> Known(h, parts[i]) && parts[i] == elems[i];
    case Struct(_, fields) => assert forall i :: 0 <= i < |parts| ==> Known(h, parts[i]) && parts[i] == fields[i].1;
  }

  lemma ShowIsPrinted(h: Heap, open: seq<Id>, v: Val)
    requires Closed(h) && Known(h, v)
    ensures Printed(h, open, v, Show(h, open, v))
  {
    hide Join, ShowAll, ArrayText, StructText;
    if v.Ref? {
      ClosedInside(h, v.id);
    }
    if v.Ref? && v.id !in open {
      var parts := Parts(h[v.id]);
      var texts := ShowAll(h, [v.id] + open, parts);
      forall i | 0 <= i < |parts|
        ensures texts[i] == Show(h, [v.id] + open, parts[i])
      {
        ShowAllAt(h, [v.id] + open, parts, i);
      }
      match h[v.id]
      case Array(elems) =>
        ArrayIsText(texts);
        assert texts == seq(|elems|, i requires 0 <= i < |elems| => Show(h, [v.id] + open, elems[i]));
      case Struct(name, fields) =>
        StructIsText(name, fields, texts);
        assert texts == seq(|fields|, i requires 0 <= i < |fields| => Show(h, [v.id] + open, fields[i].1));
    }
  }

  // ----- structures without cycles are printed in full -----

  /** References lead to objects of smaller rank. */
  ghost predicate Ranked(h: Heap, rank: Id -> nat) {
    forall id, i :: id in h && 0 <= i < |Parts(h[id])| && Parts(h[id])[i].Ref? ==> rank(Parts(h[id])[i].id) < rank(id)
  }

  function RankOf(rank: Id -> nat, v: Val): nat { if v.Ref? then rank(v.id) + 1 else 0 }

  /** The full text, shared parts repeated. */
  function Full(h: Heap, rank: Id -> nat, v: Val): string
    requires Closed(h) && Ranked(h, rank) && Known(h, v)
    decreases RankOf(rank, v)
  {
    match v
    case Atom(text) => text
    case Ref(id) =>
      var parts := Parts(h[id]);
      Whole(h[id], seq(|parts|, i requires 0 <= i < |parts| => Full(h, rank, parts[i])))
  }

  lemma {:induction false} PrintedInFull(h: Heap, rank: Id -> nat, open: seq<Id>, v: Val)
    requires Closed(h) && Ranked(h, rank) && Known(h, v)
    requires forall id :: id in open ==> RankOf(rank, v) <= rank(id)
    ensures Show(h, open, v) == Full(h, rank, v)
    decreases RankOf(rank, v)
  {
    if v.Ref? {
      var parts := Parts(h[v.id]);
      var texts := ShowAll(h, [v.id] + open, parts);
      forall i | 0 <= i < |parts|
        ensures texts[i] == Full(h, rank, parts[i])
      {
        PrintedInFull(h, rank, [v.id] + open, parts[i]);
        ShowAllAt(h, [v.id] + open, parts, i);
      }
      assert texts == seq(|parts|, i requires 0 <= i < |parts| => Full(h, rank, parts[i]));
    }
  }

  /** An array that contains itself. */
  lemma Itself(id: Id)
    ensures var h: Heap := map[id := Array([Ref(id)])]; Closed(h) && Show(h, [], Ref(id)) == "[[...]]"
  {
    var h: Heap := map[id := Array([Ref(id)])];
    assert Closed(h);
    assert ShowAll(h, [id] + [], [Ref(id)]) == [] + [Show(h, [id] + [], Ref(id))];
    assert Show(h, [id] + [], Ref(id)) == "[...]";
    assert Join(["[...]"]) == "[...]";
  }

  // ----- writing it -----

  /** The space that element texts take with their separators. */
  function Space(texts: seq<string>): nat {
    if texts == [] then 0
    else Space(texts[..|texts| - 1]) + |texts[|texts| - 1]| + (if |texts| == 1 then 0 else 2)
  }

  lemma {:induction false} SpaceIsEnough(texts: seq<string>)
    ensures |Join(texts)| == Space(texts)
  {
    if |texts| > 1 {
      SpaceIsEnough(texts[..|texts| - 1]);
    }
  }

  /** `memcpy` to a place in a buffer. */
  method Copy(buf: array<char>, at: nat, text: string) returns (next: nat)
    requires at + |text| <= buf.Length
    modifies buf
    ensures next == at + |text| && buf[..next] == old(buf[..at]) + text
  {
    next := at;
    for i := 0 to |text|
      invariant next == at + i <= buf.Length && buf[..next] == old(buf[..at]) + text[..i]
    {
      buf[next] := text[i];
      next := next + 1;
      assert text[..i + 1] == text[..i] + [text[i]];
    }
    assert text[..|text|] == text;
  }

  /** What has been written after `i` elements, with the separator before the next one. */
  function Written(texts: seq<string>, i: nat): string
    requires i <= |texts|
  {
    Join(texts[..i]) + if 0 < i < |texts| then ", " else ""
  }

  lemma {:induction false} WrittenNext(texts: seq<string>, i: nat)
    requires i < |texts|
    ensures Written(texts, i + 1) == Written(texts, i) + texts[i] + (if i + 1 < |texts| then ", " else "")
    ensures |Written(texts, i + 1)| <= |Join(texts)|
    decreases |texts| - i
  {
    assert texts[..i + 1][..i] == texts[..i];
    if i + 1 < |texts| {
      WrittenNext(texts, i + 1);
    } else {
      assert texts[..i + 1] == texts;
    }
  }

  class Printer {
    const heap: Heap
    /** The objects being printed, the last one first. */
    var open: seq<Id>

    constructor (heap: Heap)
      ensures this.heap == heap && open == []
    {
      this.heap, open := heap, [];
    }

    /** Whether the object is being printed already; if not, now it is. */
    method Enter(id: Id) returns (already: bool)
      modifies this
      ensures already <==> id in old(open)
      ensures open == if already then old(open) else [id] + old(open)
    {
      for i := 0 to |open|
        invariant id !in open[..i] && open == old(open)
      {
        if open[i] == id {
          return true;
        }
      }
      assert open[..|open|] == open;
      open := [id] + open;
      return false;
    }

    /** The first entry of the object is removed. */
    method Leave(id: Id)
      modifies this
      ensures id !in old(open) ==> open == old(open)
      ensures old(open) != [] && old(open[0]) == id ==> open == old(open[1..])
    {
      var i := 0;
      while i < |open| && open[i] != id
        invariant i <= |open| && id !in open[..i]
      {
        i := i + 1;
      }
      if i < |open| {
        open := open[..i] + open[i + 1..];
      }
    }

    method Texts(vs: seq<Val>) returns (texts: seq<string>, len: nat)
      requires Closed(heap) && forall i :: 0 <= i < |vs| ==> Known(heap, vs[i])
      modifies this
      decreases heap.Keys - Set(open), 2
      ensures open == old(open)
      ensures texts == ShowAll(heap, open, vs) && len == |Join(texts)|
    {
      hide Printed, Show, Join;
      texts, len := [], 0;
      for i := 0 to |vs|
        invariant open == old(open) && |texts| == i && len == Space(texts)
        invariant texts == ShowAll(heap, open, vs[..i])
      {
        var text := ToText(vs[i]);
        assert vs[..i + 1][..i] == vs[..i];
        texts := texts + [text];
        assert texts[..i] + [text] == texts;
        assert texts[..i] == ShowAll(heap, open, vs[..i]);
        len := len + |text|;
        if i != 0 {
          len := len + 2;
        }
      }
      assert vs[..|vs|] == vs;
      SpaceIsEnough(texts);
    }

    /** Fills a buffer of exactly the right length. */
    method Fill(first: string, texts: seq<string>, last: string, len: nat) returns (s: string)
      requires len == |first| + |Join(texts)| + |last|
      ensures s == first + Join(texts) + last
    {
      var buf := new char[len](_ => ' ');
      var ptr := Copy(buf, 0, first);
      assert buf[..ptr] == first + Written(texts, 0);
      for i := 0 to |texts|
        invariant ptr == |first| + |Written(texts, i)| && ptr + |last| <= len
        invariant buf[..ptr] == first + Written(texts, i)
      {
        WrittenNext(texts, i);
        ptr := Copy(buf, ptr, texts[i]);
        if i + 1 < |texts| {
          ptr := Copy(buf, ptr, ", ");
        }
        assert buf[..ptr] == first + Written(texts, i + 1);
      }
      assert texts[..|texts|] == texts;
      ptr := Copy(buf, ptr, last);
      assert ptr == buf.Length;
      s := buf[..];
      assert s == buf[..ptr];
    }

    /** The text of a value; afterwards the same objects are being printed as before. */
    method ToText(v: Val) returns (s: string)
      requires Closed(heap) && Known(heap, v)
      modifies this
      decreases heap.Keys - Set(open), 1
      ensures open == old(open) && s == Show(heap, open, v) && Printed(heap, open, v, s)
    {
      hide Printed;
      ShowIsPrinted(heap, open, v);
      if v.Atom? {
        return v.text;
      }
      var already := Enter(v.id);
      if already {
        return Cut(heap[v.id]);
      }
      assert Set(open) == Set(old(open)) + {v.id};
      var texts, size := Texts(Parts(heap[v.id]));
      match heap[v.id] {
        case Array(_) =>
          s := Fill("[", texts, "]", 2 + size);
        case Struct(name, fields) =>
          var labelled, len := LabelAll(fields, texts);
          s := Fill(name + "{", labelled, "}", |name| + 2 + len);
      }
      Leave(v.id);
    }

    method LabelAll(fields: seq<(string, Val)>, texts: seq<string>) returns (labelled: seq<string>, len: nat)
      requires |fields| == |texts|
      ensures labelled == Labelled(fields, texts) && len == |Join(labelled)|
    {
      labelled, len := [], 0;
      for i := 0 to |fields|
        invariant labelled == Labelled(fields[..i], texts[..i]) && len == Space(labelled)
      {
        var line := fields[i].0 + " = " + texts[i];
        labelled := labelled + [line];
        assert labelled[..i] + [line] == labelled;
        len := len + |texts[i]| + |fields[i].0| + 3;
        if i != 0 {
          len := len + 2;
        }
      }
      assert fields[..|fields|] == fields && texts[..|fields|] == texts;
      SpaceIsEnough(labelled);
    }
  }
}
