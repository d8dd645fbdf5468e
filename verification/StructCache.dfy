/** Struct fields and the inline caches of the instructions that use them: a site
    remembers one spec and the index of its field there; the first receiver of another
    spec makes it give up for good. */
module StructCache {
  import opened Syntax

  /** The first field with a name, or -1. */
  function FieldIndex(fields: seq<Name>, name: Name): (i: int)
    ensures -1 <= i < |fields|
    ensures i >= 0 ==> fields[i] == name && name !in fields[..i]
    ensures i == -1 <==> name !in fields
  {
    if fields == [] then -1
    else if FieldIndex(fields[..|fields| - 1], name) >= 0 then FieldIndex(fields[..|fields| - 1], name)
    else if fields[|fields| - 1] == name then |fields| - 1
    else -1
  }

  predicate FirstField(fields: seq<Name>, name: Name, i: nat) {
    i < |fields| && fields[i] == name && name !in fields[..i]
  }

  /** The `i`th method is the first with the name, and this is its function. */
  predicate FirstMethod(methods: seq<(Name, nat)>, name: Name, i: nat, f: nat) {
    i < |methods| && methods[i] == (name, f) && forall j :: 0 <= j < i ==> methods[j].0 != name
  }

  /** The function of the first method with a name. */
  function MethodOf(methods: seq<(Name, nat)>, name: Name): (f: Option<nat>)
    ensures f.None? <==> forall i :: 0 <= i < |methods| ==> methods[i].0 != name
    ensures f.Some? ==> exists i: nat :: FirstMethod(methods, name, i, f.value)
  {
    if methods == [] then None
    else if methods[0].0 == name then
      assert FirstMethod(methods, name, 0, methods[0].1);
      Some(methods[0].1)
    else
      var f := MethodOf(methods[1..], name);
      assert f.Some? ==> exists i: nat :: FirstMethod(methods, name, i, f.value) by {
        if f.Some? {
          var i: nat :| FirstMethod(methods[1..], name, i, f.value);
          assert FirstMethod(methods, name, i + 1, f.value);
        }
      }
      f
  }

  class Spec {
    const fields: seq<Name>
    const methods: seq<(Name, nat)>

    constructor (fields: seq<Name>, methods: seq<(Name, nat)>)
      ensures this.fields == fields && this.methods == methods
    {
      this.fields, this.methods := fields, methods;
    }

    method Find(name: Name) returns (idx: int)
      ensures idx == FieldIndex(fields, name)
    {
      for i := 0 to |fields|
        invariant name !in fields[..i]
      {
        if fields[i] == name {
          assert forall j :: 0 <= j < i ==> fields[..i][j] == fields[j];
          assert forall j :: i < j < |fields| ==> fields[..j][i] == name;
          return i;
        }
      }
      assert fields[..|fields|] == fields;
      return -1;
    }

    method GetMethod(name: Name) returns (f: Option<nat>)
      ensures f == MethodOf(methods, name)
    {
      for i := 0 to |methods|
        invariant MethodOf(methods, name) == MethodOf(methods[i..], name)
      {
        if methods[i].0 == name {
          return Some(methods[i].1);
        }
      }
      return None;
    }
  }

  /** The fields of a struct start as null. */
  class Struct<V> {
    const spec: Spec
    const fields: array<V>

    ghost predicate Valid() {
      fields.Length == |spec.fields|
    }

    constructor (spec: Spec, none: V)
      ensures Valid() && this.spec == spec && fresh(fields)
      ensures fields[..] == seq(|spec.fields|, _ => none)
    {
      this.spec := spec;
      fields := new V[|spec.fields|](_ => none);
    }
  }

  /** What loading a field gives: its value, a bound method, or an error. */
  datatype Loaded<V> = Field(v: V) | Method(func: nat) | NotStruct | NoSuchField

  /** The reference: a search by name every time. */
  function Lookup<V>(recv: Option<Struct<V>>, name: Name): Loaded<V>
    requires recv.Some? ==> recv.value.Valid()
    reads if recv.Some? then {recv.value.fields} else {}
  {
    if recv.None? then NotStruct
    else
      var s := recv.value;
      var i := FieldIndex(s.spec.fields, name);
      if i >= 0 then Field(s.fields[i])
      else
        match MethodOf(s.spec.methods, name)
        case Some(f) => Method(f)
        case None => NoSuchField
  }

  predicate HasField<V>(s: Struct<V>, name: Name) { FieldIndex(s.spec.fields, name) >= 0 }

  /** A load of this name finds a bound method. */
  predicate BindsMethod<V>(recv: Option<Struct<V>>, name: Name) {
    recv.Some? && !HasField(recv.value, name) && MethodOf(recv.value.spec.methods, name).Some?
  }

  class Site {
    const name: Name
    var spec: Spec?
    var index: int

    /** What the site remembers is right; index -1 with no spec means that it has given
        up. */
    ghost predicate Valid()
      reads this
    {
      if spec != null then index >= 0 && index == FieldIndex(spec.fields, name) else index == 0 || index == -1
    }

    /** Giving up is for good; a site that has cached gives up at another spec; a new site
        takes the first spec it finds the field in. */
    ghost predicate Moves(spec0: Spec?, index0: int, s: Spec, found: bool)
      reads this
    {
      if spec0 == s then spec == s && index == index0
      else if spec0 != null || index0 == -1 then spec == null && index == -1
      else found ==> spec == s
    }

    /** Nothing is cached yet, and the site has not given up. */
    ghost predicate Fresh()
      reads this
    {
      spec == null && index == 0
    }

    constructor (name: Name)
      ensures Valid() && this.name == name && Fresh()
    {
      this.name := name;
      spec, index := null, 0;
    }

    method Forget()
      modifies this
      ensures spec == null && index == -1
    {
      spec, index := null, -1;
    }

    /** A load gives what the search gives.  The cache stays right if and only if the
        receiver does not bind a method at a fresh site: then the index -1 is remembered
        for the receiver's spec. */
    method Load<V>(recv: Option<Struct<V>>) returns (r: Loaded<V>)
      requires Valid() && (recv.Some? ==> recv.value.Valid())
      modifies this
      ensures r == Lookup(recv, name)
      ensures r.Field? ==> recv.Some? && exists i: nat :: FirstField(recv.value.spec.fields, name, i) && r.v == recv.value.fields[i]
      ensures r.Method? ==> BindsMethod(recv, name) && exists i: nat :: FirstMethod(recv.value.spec.methods, name, i, r.func)
      ensures (r.NotStruct? <==> recv.None?) && (r.NoSuchField? <==> recv.Some? && !HasField(recv.value, name) && !BindsMethod(recv, name))
      ensures Valid() <==> !(old(Fresh()) && BindsMethod(recv, name))
      ensures !Valid() ==> spec == recv.value.spec && index == -1
      ensures Fresh() <==> old(Fresh()) && (recv.None? || !(HasField(recv.value, name) || BindsMethod(recv, name)))
      ensures recv.Some? ==> Moves(old(spec), old(index), recv.value.spec, r.Field?)
    {
      if recv.None? {
        return NotStruct;
      }
      var s := recv.value;
      if spec != null {
        if spec == s.spec {
          assert FirstField(s.spec.fields, name, index);
          return Field(s.fields[index]);
        }
        Forget();
      }
      var idx := s.spec.Find(name);
      if idx >= 0 {
        assert FirstField(s.spec.fields, name, idx);
        r := Field(s.fields[idx]);
      } else {
        var f := s.spec.GetMethod(name);
        if f.None? {
          return NoSuchField;
        }
        r := Method(f.value);
      }
      if index != -1 {
        spec, index := s.spec, idx;
      }
    }

    /** A store writes the field that the search finds, and nothing else; without such a
        field it is an error. */
    method Store<V>(recv: Option<Struct<V>>, v: V) returns (ok: bool)
      requires Valid() && (recv.Some? ==> recv.value.Valid())
      modifies this, if recv.Some? then {recv.value.fields} else {}
      ensures Valid()
      ensures ok <==> recv.Some? && HasField(recv.value, name)
      ensures Fresh() <==> old(Fresh()) && !ok
      ensures recv.Some? ==> Moves(old(spec), old(index), recv.value.spec, ok)
      ensures ok ==> recv.value.fields[..] == old(recv.value.fields[..])[FieldIndex(recv.value.spec.fields, name) := v]
      ensures !ok && recv.Some? ==> recv.value.fields[..] == old(recv.value.fields[..])
    {
      if recv.None? {
        return false;
      }
      var s := recv.value;
      if spec != null {
        if spec == s.spec {
          s.fields[index] := v;
          return true;
        }
        Forget();
      }
      var idx := s.spec.Find(name);
      if idx < 0 {
        return false;
      }
      s.fields[idx] := v;
      if index != -1 {
        spec, index := s.spec, idx;
      }
      return true;
    }

    /** Any sequence of receivers that have the field, of any specs. */
    method LoadAll<V>(recvs: seq<Struct<V>>) returns (values: seq<Loaded<V>>)
      requires Valid() && forall i :: 0 <= i < |recvs| ==> recvs[i].Valid() && HasField(recvs[i], name)
      modifies this
      ensures Valid() && |values| == |recvs|
      ensures forall i :: 0 <= i < |recvs| ==> values[i] == Lookup(Some(recvs[i]), name)
      ensures old(spec) == null && old(index) == -1 ==> spec == null && index == -1
      ensures |recvs| > 1 && recvs[0].spec != recvs[1].spec ==> spec == null && index == -1
    {
      values := [];
      for i := 0 to |recvs|
        invariant Valid() && |values| == i
        invariant forall j :: 0 <= j < i ==> values[j] == Lookup(Some(recvs[j]), name)
        invariant old(spec) == null && old(index) == -1 ==> spec == null && index == -1
        invariant i == 1 ==> spec == recvs[0].spec || (spec == null && index == -1)
        invariant i > 1 && recvs[0].spec != recvs[1].spec ==> spec == null && index == -1
      {
        var r := Load(Some(recvs[i]));
        values := values + [r];
      }
    }
  }

  /** A spec with a method and no field of its name: the first load of the method makes the
      site remember the index -1 for the spec, where the next load would read a field. */
  method MethodAtFreshSite() returns (site: Site, s: Struct<int>, r: Loaded<int>)
    ensures s.Valid() && s.spec.fields == [] && r == Method(7)
    ensures site.spec == s.spec && site.index == -1 && !site.Valid()
  {
    var spec := new Spec([], [(1, 7)]);
    s := new Struct(spec, 0);
    site := new Site(1);
    r := site.Load(Some(s));
  }

  // ----- whole runs, over any number of instructions and structs -----

  datatype Kind = Get | Put | AddField

  /** One instruction is executed: which one, on what, with which value to store. */
  datatype Access<V> = Access(site: nat, recv: Option<Struct<V>>, v: V)

  /** A load pushes the field, a store its value, a field-add the receiver. */
  datatype Pushed<V> = Value(v: V) | Receiver(s: Struct<V>) | Bound(func: nat) | Error

  /** The fields of all structs. */
  type Contents<!V> = map<Struct<V>, seq<V>>

  /** The reference: the field is searched by name every time. */
  ghost function Plain<V>(h: Contents<V>, kind: Kind, name: Name, a: Access<V>): (Contents<V>, Pushed<V>) {
    if a.recv.None? || a.recv.value !in h then (h, Error)
    else
      var s := a.recv.value;
      var i := FieldIndex(s.spec.fields, name);
      if 0 <= i < |h[s]| then
        match kind
        case Get => (h, Value(h[s][i]))
        case Put => (h[s := h[s][i := a.v]], Value(a.v))
        case AddField => (h[s := h[s][i := a.v]], Receiver(s))
      else if kind == Get && MethodOf(s.spec.methods, name).Some? then (h, Bound(MethodOf(s.spec.methods, name).value))
      else (h, Error)
  }

  ghost function PlainRun<V>(h: Contents<V>, kinds: seq<Kind>, names: seq<Name>, run: seq<Access<V>>): (Contents<V>, seq<Pushed<V>>) {
    if run == [] then (h, [])
    else
      var n := |run| - 1;
      var (h1, pushed) := PlainRun(h, kinds, names, run[..n]);
      if run[n].site < |kinds| && run[n].site < |names| then
        var (h2, p) := Plain(h1, kinds[run[n].site], names[run[n].site], run[n]);
        (h2, pushed + [p])
      else (h1, pushed + [Error])
  }

  class Code<V(!new)> {
    const sites: seq<Site>
    const kinds: seq<Kind>
    ghost const structs: set<Struct<V>>

    ghost predicate Apart() {
      && |kinds| == |sites|
      && (forall i, j :: 0 <= i < j < |sites| ==> sites[i] != sites[j])
      && (forall s :: s in structs ==> s.Valid())
      && (forall s, t :: s in structs && t in structs && s != t ==> s.fields != t.fields)
    }

    ghost function Sites(): set<object> { set x | x in sites }

    ghost function Arrays(): set<object> { set s | s in structs :: s.fields }

    ghost predicate Valid()
      reads Sites()
    {
      Apart() && forall i :: 0 <= i < |sites| ==> sites[i].Valid()
    }

    ghost function Names(): seq<Name> { seq(|sites|, i requires 0 <= i < |sites| => sites[i].name) }

    ghost function Heap(): Contents<V>
      reads Arrays()
    {
      map s | s in structs :: s.fields[..]
    }

    constructor (sites: seq<Site>, kinds: seq<Kind>, ghost structs: set<Struct<V>>)
      ensures this.sites == sites && this.kinds == kinds && this.structs == structs
    {
      this.sites, this.kinds, this.structs := sites, kinds, structs;
    }

    ghost predicate Possible(a: Access<V>) {
      a.site < |sites| && |kinds| == |sites| && (a.recv.Some? ==> a.recv.value in structs)
    }

    /** The access binds a method, which a fresh site takes for a field. */
    ghost predicate Poisons(a: Access<V>)
      requires Possible(a)
    {
      kinds[a.site] == Get && BindsMethod(a.recv, sites[a.site].name)
    }

    /** The access settles its site, by finding the field. */
    ghost predicate Settles(a: Access<V>)
      requires Possible(a)
    {
      a.recv.Some? && HasField(a.recv.value, sites[a.site].name)
    }

    ghost predicate AllPossible(run: seq<Access<V>>) { forall i :: 0 <= i < |run| ==> Possible(run[i]) }

    /** One of the first `n` accesses has settled the site. */
    ghost predicate Settled(run: seq<Access<V>>, n: nat, site: nat)
      requires n <= |run| && AllPossible(run)
    {
      exists i :: 0 <= i < n && run[i].site == site && Settles(run[i])
    }

    ghost function FreshSites(): set<nat>
      reads Sites()
    {
      set i: nat | i < |sites| && sites[i].Fresh()
    }

    /** The `n`th access does not bind a method at a fresh site: the site was not among the
        fresh ones at the start, or an access before has found the field there. */
    ghost predicate HarmlessAt(fresh0: set<nat>, run: seq<Access<V>>, n: nat)
      requires n < |run| && AllPossible(run)
    {
      Poisons(run[n]) ==> run[n].site !in fresh0 || Settled(run, n, run[n].site)
    }

    ghost predicate Harmless(fresh0: set<nat>, run: seq<Access<V>>)
      requires AllPossible(run)
    {
      forall n :: 0 <= n < |run| ==> HarmlessAt(fresh0, run, n)
    }

    /** The sites still fresh after `n` accesses. */
    ghost function StillFresh(fresh0: set<nat>, run: seq<Access<V>>, n: nat): set<nat>
      requires n <= |run| && AllPossible(run)
    {
      set i | i in fresh0 && !Settled(run, n, i)
    }

    lemma FreshNext(fresh0: set<nat>, run: seq<Access<V>>, n: nat)
      requires n < |run| && AllPossible(run)
      ensures HarmlessAt(fresh0, run, n) <==> !(Poisons(run[n]) && run[n].site in StillFresh(fresh0, run, n))
      ensures HarmlessAt(fresh0, run, n) ==>
                var before := StillFresh(fresh0, run, n);
                StillFresh(fresh0, run, n + 1) == if Settles(run[n]) || Poisons(run[n]) then before - {run[n].site} else before
    {
      hide Poisons, Settles;
      forall i
        ensures Settled(run, n + 1, i) <==> Settled(run, n, i) || (run[n].site == i && Settles(run[n]))
      {
      }
    }

    /** A load pushes a field's value or binds the receiver's first method of the name; a
        store pushes what it stored, and a field-add the receiver. */
    ghost predicate Pushes(a: Access<V>, p: Pushed<V>)
      requires Possible(a)
    {
      && (p.Error? <==> !Settles(a) && !Poisons(a))
      && (p.Bound? ==> Poisons(a) && exists i: nat :: FirstMethod(a.recv.value.spec.methods, sites[a.site].name, i, p.func))
      && (Settles(a) ==>
            match kinds[a.site]
            case Get => p.Value?
            case Put => p == Value(a.v)
            case AddField => p == Receiver(a.recv.value))
    }

    /** One instruction does what the reference does, and leaves all caches right if and only
        if it does not bind a method at a fresh site. */
    method Execute(a: Access<V>) returns (p: Pushed<V>)
      requires Valid() && Possible(a)
      modifies Sites(), Arrays()
      ensures Pushes(a, p)
      ensures (Heap(), p) == Plain(old(Heap()), kinds[a.site], sites[a.site].name, a)
      ensures Valid() <==> !(Poisons(a) && a.site in old(FreshSites()))
      ensures FreshSites() == if Settles(a) || Poisons(a) then old(FreshSites()) - {a.site} else old(FreshSites())
    {
      hide FieldIndex, MethodOf;
      if kinds[a.site] == Get {
        p := Fetch(a);
      } else {
        p := Assign(a);
      }
    }

    method Fetch(a: Access<V>) returns (p: Pushed<V>)
      requires Valid() && Possible(a) && kinds[a.site] == Get
      modifies Sites()
      ensures Pushes(a, p)
      ensures (Heap(), p) == Plain(old(Heap()), Get, sites[a.site].name, a)
      ensures Valid() <==> !(Poisons(a) && a.site in old(FreshSites()))
      ensures FreshSites() == if Settles(a) || Poisons(a) then old(FreshSites()) - {a.site} else old(FreshSites())
    {
      hide FieldIndex, MethodOf;
      ghost var h := Heap();
      var r := sites[a.site].Load(a.recv);
      assert Heap() == h;
      match r {
        case Field(v) => p := Value(v);
        case Method(f) => p := Bound(f);
        case _ => p := Error;
      }
    }

    method Assign(a: Access<V>) returns (p: Pushed<V>)
      requires Valid() && Possible(a) && kinds[a.site] != Get
      modifies Sites(), Arrays()
      ensures Pushes(a, p) && Valid() && (Heap(), p) == Plain(old(Heap()), kinds[a.site], sites[a.site].name, a)
      ensures FreshSites() == if Settles(a) then old(FreshSites()) - {a.site} else old(FreshSites())
    {
      hide FieldIndex, MethodOf;
      ghost var h := Heap();
      var site := sites[a.site];
      var ok := site.Store(a.recv, a.v);
      p := if !ok then Error else if kinds[a.site] == Put then Value(a.v) else Receiver(a.recv.value);
      if ok {
        var i := FieldIndex(a.recv.value.spec.fields, site.name);
        assert Heap() == h[a.recv.value := h[a.recv.value][i := a.v]];
      } else {
        assert Heap() == h;
      }
    }

    /** In any run of loads, stores and field-adds, on any structs, caching changes nothing,
        and all caches are right in the end if and only if no load at a fresh site binds a
        method.  (The run ends with the first load that does.) */
    method ExecuteAll(run: seq<Access<V>>) returns (pushed: seq<Pushed<V>>)
      requires Valid() && AllPossible(run) && forall n :: 0 <= n < |run| - 1 ==> HarmlessAt(FreshSites(), run, n)
      modifies Sites(), Arrays()
      ensures (Heap(), pushed) == PlainRun(old(Heap()), kinds, Names(), run)
      ensures |pushed| == |run| && forall n :: 0 <= n < |run| ==> Pushes(run[n], pushed[n])
      ensures Valid() <==> Harmless(old(FreshSites()), run)
    {
      hide Valid, Plain, Poisons, Settles, HarmlessAt, StillFresh, Pushes;
      ghost var fresh0 := FreshSites();
      pushed := [];
      NothingSettled(fresh0, run);
      for n := 0 to |run|
        invariant Valid() <==> forall i :: 0 <= i < n ==> HarmlessAt(fresh0, run, i)
        invariant Valid() ==> FreshSites() == StillFresh(fresh0, run, n)
        invariant (Heap(), pushed) == PlainRun(old(Heap()), kinds, Names(), run[..n])
        invariant |pushed| == n && forall i :: 0 <= i < n ==> Pushes(run[i], pushed[i])
      {
        assert run[..n + 1][..n] == run[..n];
        assert Possible(run[n]);
        FreshNext(fresh0, run, n);
        var p := Execute(run[n]);
        pushed := pushed + [p];
      }
      assert run[..|run|] == run;
    }

    lemma NothingSettled(fresh0: set<nat>, run: seq<Access<V>>)
      requires AllPossible(run)
      ensures StillFresh(fresh0, run, 0) == fresh0
    {
    }
  }
}
