/**
 * The tree of lib/lk/LinuxDevFS.C over the sibling rings: where paths lead, and what a new
 * entry and a removal do to them. Siblings may have the same name.
 */
module DevTree {
  import opened Prelude
  import opened DevRing

  const ROOT: Id := 0

  type Rings = map<Id, seq<Id>>

  /** Every entry has a ring of children, made after it, names hold no slash, and the root is in no ring. */
  ghost predicate TreeOk(ns: Nodes, rings: Rings, next: Id) {
    && ROOT in ns && ns[ROOT].parent == None
    && ns.Keys == rings.Keys
    && (forall d :: d in ns ==> d < next && '/' !in ns[d].name)
    && (forall d :: d in rings ==> Ring(ns, d, rings[d]))
    && (forall d, x :: d in rings && x in rings[d] ==> d < x)
  }

  lemma Parented(ns: Nodes, d: Id, r: seq<Id>, x: Id)
    requires Ring(ns, d, r) && x in r
    ensures x in ns && ns[x].parent == Some(d)
  {
    var i :| 0 <= i < |r| && r[i] == x;
    assert Linked(ns, d, r, i);
  }

  // ------------------------------------------------- paths

  /** The entry a path leads to from d. */
  ghost function Resolve(ns: Nodes, rings: Rings, d: Id, path: seq<string>): Option<Id>
    decreases |path|
  {
    if path == [] then Some(d)
    else if d !in rings then None
    else
      var c := Child(ns, rings[d], path[0]);
      if c.None? then None else Resolve(ns, rings, c.value, path[1..])
  }

  lemma {:induction false} ResolveJoin(ns: Nodes, rings: Rings, d: Id, path: seq<string>, rest: seq<string>)
    ensures Resolve(ns, rings, d, path + rest) ==
            var x := Resolve(ns, rings, d, path);
            if x.None? then None else Resolve(ns, rings, x.value, rest)
    decreases |path|
  {
    if path == [] {
      assert path + rest == rest;
    } else if d in rings {
      assert (path + rest)[1..] == path[1..] + rest;
      var c := Child(ns, rings[d], path[0]);
      if c.Some? {
        ResolveJoin(ns, rings, c.value, path[1..], rest);
      }
    }
  }

  lemma ResolveSnoc(ns: Nodes, rings: Rings, d: Id, path: seq<string>, name: string, x: Id)
    requires Resolve(ns, rings, d, path) == Some(x)
    ensures Resolve(ns, rings, d, path + [name]) == if x !in rings then None else Child(ns, rings[x], name)
  {
    ResolveJoin(ns, rings, d, path, [name]);
    assert [name][1..] == [];
  }

  /** A path that leads somewhere has prefixes that do. */
  lemma ResolvePrefix(ns: Nodes, rings: Rings, d: Id, path: seq<string>, k: nat)
    requires Resolve(ns, rings, d, path).Some? && k <= |path|
    ensures Resolve(ns, rings, d, path[..k]).Some?
  {
    assert path == path[..k] + path[k..];
    ResolveJoin(ns, rings, d, path[..k], path[k..]);
  }

  /** Paths lead to later entries. */
  lemma {:induction false} Descends(ns: Nodes, rings: Rings, next: Id, d: Id, path: seq<string>, x: Id)
    requires TreeOk(ns, rings, next) && d in ns && path != [] && Resolve(ns, rings, d, path) == Some(x)
    ensures d < x && x in ns
    decreases |path|
  {
    var c := Child(ns, rings[d], path[0]).value;
    assert Ring(ns, d, rings[d]);
    if |path| > 1 {
      Descends(ns, rings, next, c, path[1..], x);
    } else {
      assert path[1..] == [];
    }
  }

  /** The two paths name the same components, as far as an entry can tell. */
  ghost predicate SameNames(p: seq<string>, q: seq<string>) {
    |p| == |q| && forall i :: 0 <= i < |p| ==> Short(p[i]) == Short(q[i])
  }

  lemma {:induction false} ResolveSame(ns: Nodes, rings: Rings, d: Id, p: seq<string>, q: seq<string>)
    requires SameNames(p, q)
    ensures Resolve(ns, rings, d, p) == Resolve(ns, rings, d, q)
    decreases |p|
  {
    if p != [] && d in rings {
      ChildSame(ns, rings[d], p[0], q[0]);
      var c := Child(ns, rings[d], p[0]);
      if c.Some? {
        ResolveSame(ns, rings, c.value, p[1..], q[1..]);
      }
    }
  }

  /** The last step of a path: from a directory to an entry of its ring. */
  lemma LastStep(ns: Nodes, rings: Rings, next: Id, path: seq<string>, x: Id) returns (d: Id)
    requires TreeOk(ns, rings, next) && path != [] && Resolve(ns, rings, ROOT, path) == Some(x)
    ensures Resolve(ns, rings, ROOT, path[..|path| - 1]) == Some(d) && d in rings && x in rings[d]
    ensures x in ns && ns[x].parent == Some(d) && ns[x].name == Short(path[|path| - 1])
  {
    var n := |path| - 1;
    assert path == path[..n] + [path[n]];
    ResolvePrefix(ns, rings, ROOT, path, n);
    d := Resolve(ns, rings, ROOT, path[..n]).value;
    ResolveSnoc(ns, rings, ROOT, path[..n], path[n], d);
    Parented(ns, d, rings[d], x);
  }

  lemma SameSnoc(p: seq<string>, q: seq<string>)
    requires p != [] && q != [] && SameNames(p[..|p| - 1], q[..|q| - 1])
    requires Short(p[|p| - 1]) == Short(q[|q| - 1])
    ensures SameNames(p, q)
  {
    forall i | 0 <= i < |p| - 1
      ensures Short(p[i]) == Short(q[i])
    {
      assert Short(p[..|p| - 1][i]) == Short(q[..|q| - 1][i]);
    }
  }

  /** An entry is reached by one path only. */
  lemma {:induction false} PathUnique(ns: Nodes, rings: Rings, next: Id, p: seq<string>, q: seq<string>, x: Id)
    requires TreeOk(ns, rings, next)
    requires Resolve(ns, rings, ROOT, p) == Some(x) && Resolve(ns, rings, ROOT, q) == Some(x)
    ensures SameNames(p, q)
    decreases |p|
  {
    if p != [] {
      var d := LastStep(ns, rings, next, p, x);
      assert q != [];
      var e := LastStep(ns, rings, next, q, x);
      PathUnique(ns, rings, next, p[..|p| - 1], q[..|q| - 1], d);
      SameSnoc(p, q);
    } else if q != [] {
      var e := LastStep(ns, rings, next, q, x);
    }
  }

  // ------------------------------------------------- a new entry

  /** new devfsEntry(name) and d->addChild of it. */
  function NodesWith(ns: Nodes, d: Id, p: Id, name: string): Nodes
    requires d in ns && p !in ns
    requires Addable(ns, d)
  {
    Added(ns[p := Node(Short(name), None, None, None, None)], d, p)
  }

  function RingsWith(rings: Rings, d: Id, p: Id): Rings
    requires d in rings
  {
    rings[p := []][d := Inserted(rings[d], p)]
  }

  lemma NewRing(ns: Nodes, rings: Rings, next: Id, d: Id, name: string)
    requires TreeOk(ns, rings, next) && d in ns
    ensures Addable(ns, d)
    ensures Ring(NodesWith(ns, d, next, name), d, Inserted(rings[d], next))
    ensures Ring(NodesWith(ns, d, next, name), next, [])
  {
    var r, ns1 := rings[d], ns[next := Node(Short(name), None, None, None, None)];
    AddEnabled(ns, d, r);
    RingFrame(ns, ns1, d, r);
    AddInserts(ns1, d, r, next);
  }

  /** A new entry of d leaves the links of other directories' entries alone. */
  lemma NewFrame(ns: Nodes, d: Id, r: seq<Id>, p: Id, name: string, x: Id)
    requires Ring(ns, d, r) && d in ns && p !in ns && Addable(ns, d) && x in ns && ns[x].parent != Some(d)
    ensures SameLinks(ns, NodesWith(ns, d, p, name), x)
  {
    AddEnabled(ns, d, r);
    if r != [] {
      Parented(ns, d, r, r[0]);
      Parented(ns, d, r, r[Succ(0, |r|)]);
    }
  }

  lemma NewRingOthers(ns: Nodes, rings: Rings, next: Id, d: Id, name: string, e: Id)
    requires TreeOk(ns, rings, next) && d in ns && e in rings && e != d
    requires Addable(ns, d)
    ensures Ring(NodesWith(ns, d, next, name), e, rings[e])
  {
    var ns', r := NodesWith(ns, d, next, name), rings[e];
    AddEnabled(ns, d, rings[d]);
    assert Ring(ns, e, r) && Ring(ns, d, rings[d]);
    forall x | x in r
      ensures SameLinks(ns, ns', x)
    {
      Parented(ns, e, r, x);
      NewFrame(ns, d, rings[d], next, name, x);
    }
    RingFrame(ns, ns', e, r);
  }

  lemma NamesKept(ns: Nodes, d: Id, p: Id, name: string, x: Id)
    requires d in ns && p !in ns && x in ns
    requires Addable(ns, d)
    ensures x in NodesWith(ns, d, p, name) && NodesWith(ns, d, p, name)[x].name == ns[x].name
    ensures NodesWith(ns, d, p, name)[p].name == Short(name) && NodesWith(ns, d, p, name)[p].parent == Some(d)
    ensures x == ROOT ==> NodesWith(ns, d, p, name)[x].parent == ns[x].parent
    ensures NodesWith(ns, d, p, name).Keys == ns.Keys + {p}
  {
  }

  lemma NewRings(ns: Nodes, rings: Rings, next: Id, d: Id, name: string, e: Id)
    requires TreeOk(ns, rings, next) && d in ns && Addable(ns, d) && e in RingsWith(rings, d, next)
    ensures Ring(NodesWith(ns, d, next, name), e, RingsWith(rings, d, next)[e])
    ensures forall x :: x in RingsWith(rings, d, next)[e] ==> e < x
  {
    if e == d || e == next {
      NewRing(ns, rings, next, d, name);
      forall x | x in Inserted(rings[d], next)
        ensures d < x
      {
        InsertedMembers(rings[d], next, x);
      }
    } else {
      NewRingOthers(ns, rings, next, d, name, e);
    }
  }

  lemma NewKeys(ns: Nodes, rings: Rings, next: Id, d: Id, name: string)
    requires TreeOk(ns, rings, next) && Addable(ns, d) && '/' !in name
    ensures var ns', rings' := NodesWith(ns, d, next, name), RingsWith(rings, d, next);
            && ROOT in ns' && ns'[ROOT].parent == None && ns'.Keys == rings'.Keys
            && forall e :: e in ns' ==> e < next + 1 && '/' !in ns'[e].name
  {
    NamesKept(ns, d, next, name, ROOT);
    forall e | e in ns
      ensures '/' !in NodesWith(ns, d, next, name)[e].name
    {
      NamesKept(ns, d, next, name, e);
    }
  }

  lemma NewKeeps(ns: Nodes, rings: Rings, next: Id, d: Id, name: string)
    requires TreeOk(ns, rings, next) && d in ns && '/' !in name
    ensures Addable(ns, d) && TreeOk(NodesWith(ns, d, next, name), RingsWith(rings, d, next), next + 1)
  {
    AddEnabled(ns, d, rings[d]);
    NewKeys(ns, rings, next, d, name);
    var ns', rings' := NodesWith(ns, d, next, name), RingsWith(rings, d, next);
    forall e | e in rings'
      ensures Ring(ns', e, rings'[e]) && forall x :: x in rings'[e] ==> e < x
    {
      NewRings(ns, rings, next, d, name, e);
    }
  }

  /** The children of a directory after a new entry: as before, but for the new name. */
  lemma NewChildren(ns: Nodes, rings: Rings, next: Id, d: Id, name: string, e: Id, n: string)
    requires TreeOk(ns, rings, next) && d in ns && Addable(ns, d) && e in rings
    ensures Child(NodesWith(ns, d, next, name), RingsWith(rings, d, next)[e], n) ==
            if e == d && Short(n) == Short(name) && !Heads(ns, rings[d], name) then Some(next)
            else Child(ns, rings[e], n)
  {
    var ns', r := NodesWith(ns, d, next, name), rings[e];
    assert Ring(ns, e, r);
    forall x | x in r
      ensures x in ns' && ns'[x].name == ns[x].name
    {
      NamesKept(ns, d, next, name, x);
    }
    NamesKept(ns, d, next, name, d);
    ChildFrame(ns, ns', r, n);
    if e == d {
      ChildInserted(ns', r, next, n);
    }
  }

  /** What is left of a path from e after the step from d to `name`. */
  ghost function Rest(ns: Nodes, rings: Rings, d: Id, name: string, e: Id, path: seq<string>): Option<seq<string>>
    decreases |path|
  {
    if path == [] || e !in rings then None
    else if e == d && Short(path[0]) == Short(name) then Some(path[1..])
    else
      var c := Child(ns, rings[e], path[0]);
      if c.None? then None else Rest(ns, rings, d, name, c.value, path[1..])
  }

  /**
   * After a new entry that is not hidden by the first child, the path to its name leads to it,
   * paths that go on from there lead nowhere, and the others lead where they did.
   */
  lemma {:induction false} NewResolves(ns: Nodes, rings: Rings, next: Id, d: Id, name: string,
                                       e: Id, path: seq<string>)
    requires TreeOk(ns, rings, next) && d in ns && Addable(ns, d) && e in rings && !Heads(ns, rings[d], name)
    ensures Resolve(NodesWith(ns, d, next, name), RingsWith(rings, d, next), e, path) ==
            var rest := Rest(ns, rings, d, name, e, path);
            if rest.None? then Resolve(ns, rings, e, path) else if rest.value == [] then Some(next) else None
    decreases |path|
  {
    if path != [] {
      NewChildren(ns, rings, next, d, name, e, path[0]);
      var c := Child(ns, rings[e], path[0]);
      if !(e == d && Short(path[0]) == Short(name)) && c.Some? {
        assert Ring(ns, e, rings[e]);
        NewResolves(ns, rings, next, d, name, c.value, path[1..]);
      }
    }
  }

  /** A new entry that the first child hides changes no path. */
  lemma {:induction false} HiddenResolves(ns: Nodes, rings: Rings, next: Id, d: Id, name: string,
                                          e: Id, path: seq<string>)
    requires TreeOk(ns, rings, next) && d in ns && Addable(ns, d) && e in rings && Heads(ns, rings[d], name)
    ensures Resolve(NodesWith(ns, d, next, name), RingsWith(rings, d, next), e, path) == Resolve(ns, rings, e, path)
    decreases |path|
  {
    if path != [] {
      NewChildren(ns, rings, next, d, name, e, path[0]);
      var c := Child(ns, rings[e], path[0]);
      if c.Some? {
        assert Ring(ns, e, rings[e]);
        HiddenResolves(ns, rings, next, d, name, c.value, path[1..]);
      }
    }
  }

  /** Such a path leads to d first. */
  lemma {:induction false} RestSplits(ns: Nodes, rings: Rings, d: Id, name: string, e: Id, path: seq<string>)
      returns (k: nat)
    requires Rest(ns, rings, d, name, e, path).Some?
    ensures k < |path| && Resolve(ns, rings, e, path[..k]) == Some(d) && Short(path[k]) == Short(name)
    ensures Rest(ns, rings, d, name, e, path) == Some(path[k + 1..]) && d in rings
    decreases |path|
  {
    if e == d && Short(path[0]) == Short(name) {
      k := 0;
    } else {
      var j := RestSplits(ns, rings, d, name, Child(ns, rings[e], path[0]).value, path[1..]);
      k := j + 1;
      assert path[..k][1..] == path[1..][..j] && path[1..][j + 1..] == path[k + 1..];
    }
  }

  lemma {:induction false} RestAlong(ns: Nodes, rings: Rings, next: Id, d: Id, name: string,
                                     e: Id, path: seq<string>, k: nat)
    requires TreeOk(ns, rings, next) && e in ns && k < |path| && d in rings
    requires Resolve(ns, rings, e, path[..k]) == Some(d) && Short(path[k]) == Short(name)
    ensures Rest(ns, rings, d, name, e, path) == Some(path[k + 1..])
    decreases k
  {
    if k > 0 {
      Descends(ns, rings, next, e, path[..k], d);
      var c := Child(ns, rings[e], path[0]).value;
      assert Ring(ns, e, rings[e]);
      assert path[..k][1..] == path[1..][..k - 1] && path[1..][k - 1 + 1..] == path[k + 1..];
      RestAlong(ns, rings, next, d, name, c, path[1..], k - 1);
    }
  }

  /** With the path to d known, these are the paths that name it, then `name`. */
  lemma RestExact(ns: Nodes, rings: Rings, next: Id, d: Id, name: string, done: seq<string>, path: seq<string>)
    requires TreeOk(ns, rings, next) && d in ns && Resolve(ns, rings, ROOT, done) == Some(d)
    ensures Rest(ns, rings, d, name, ROOT, path) ==
            if |path| > |done| && SameNames(path[..|done| + 1], done + [name]) then Some(path[|done| + 1..]) else None
  {
    if Rest(ns, rings, d, name, ROOT, path).Some? {
      RestNames(ns, rings, next, d, name, done, path);
    } else if |done| < |path| && SameNames(path[..|done| + 1], done + [name]) {
      RestNamed(ns, rings, next, d, name, done, path);
    }
  }

  lemma RestNames(ns: Nodes, rings: Rings, next: Id, d: Id, name: string, done: seq<string>, path: seq<string>)
    requires TreeOk(ns, rings, next) && Resolve(ns, rings, ROOT, done) == Some(d)
    requires Rest(ns, rings, d, name, ROOT, path).Some?
    ensures |path| > |done| && SameNames(path[..|done| + 1], done + [name])
    ensures Rest(ns, rings, d, name, ROOT, path) == Some(path[|done| + 1..])
  {
    var k := RestSplits(ns, rings, d, name, ROOT, path);
    PathUnique(ns, rings, next, path[..k], done, d);
    SameExtend(path, k, done, name);
  }

  lemma SameExtend(path: seq<string>, k: nat, done: seq<string>, name: string)
    requires k < |path| && SameNames(path[..k], done) && Short(path[k]) == Short(name)
    ensures k == |done| && SameNames(path[..k + 1], done + [name])
  {
    forall i | 0 <= i < k + 1
      ensures Short(path[..k + 1][i]) == Short((done + [name])[i])
    {
      if i < k {
        assert Short(path[..k][i]) == Short(done[i]);
      }
    }
  }

  lemma RestNamed(ns: Nodes, rings: Rings, next: Id, d: Id, name: string, done: seq<string>, path: seq<string>)
    requires TreeOk(ns, rings, next) && d in ns && Resolve(ns, rings, ROOT, done) == Some(d)
    requires |path| > |done| && SameNames(path[..|done| + 1], done + [name])
    ensures Rest(ns, rings, d, name, ROOT, path) == Some(path[|done| + 1..])
  {
    var n := |done|;
    SameInit(path[..n + 1], done, name);
    assert path[..n + 1][..n] == path[..n];
    ResolveSame(ns, rings, ROOT, path[..n], done);
    RestAlong(ns, rings, next, d, name, ROOT, path, n);
  }

  lemma SameInit(path: seq<string>, done: seq<string>, name: string)
    requires SameNames(path, done + [name])
    ensures SameNames(path[..|path| - 1], done) && Short(path[|path| - 1]) == Short(name)
  {
    var q := done + [name];
    assert Short(path[|path| - 1]) == Short(q[|path| - 1]);
    forall i | 0 <= i < |done|
      ensures Short(path[i]) == Short(done[i])
    {
      assert Short(path[i]) == Short(q[i]);
    }
  }

  /** Without a child of that name such a path led nowhere. */
  lemma {:induction false} RestUnresolved(ns: Nodes, rings: Rings, d: Id, name: string, e: Id, path: seq<string>)
    requires Rest(ns, rings, d, name, e, path).Some? && d in rings && Child(ns, rings[d], name) == None
    ensures Resolve(ns, rings, e, path) == None
    decreases |path|
  {
    if e == d && Short(path[0]) == Short(name) {
      ChildSame(ns, rings[d], path[0], name);
    } else {
      RestUnresolved(ns, rings, d, name, Child(ns, rings[e], path[0]).value, path[1..]);
    }
  }

  // ------------------------------------------------- what a new entry does to the paths

  /** Everything that resolved still resolves to the same entry. */
  ghost predicate Extends(ns: Nodes, rings: Rings, ns': Nodes, rings': Rings) {
    forall path ::
      Resolve(ns, rings, ROOT, path).Some? ==> Resolve(ns', rings', ROOT, path) == Resolve(ns, rings, ROOT, path)
  }

  lemma ExtendsTwice(ns: Nodes, rings: Rings, ns1: Nodes, rings1: Rings, ns2: Nodes, rings2: Rings)
    requires Extends(ns, rings, ns1, rings1) && Extends(ns1, rings1, ns2, rings2)
    ensures Extends(ns, rings, ns2, rings2)
  {
  }

  /** Exactly the paths that led somewhere, and those that name what q names, lead somewhere. */
  ghost predicate GrowsBy(ns: Nodes, rings: Rings, ns': Nodes, rings': Rings, q: seq<string>) {
    forall path ::
      Resolve(ns', rings', ROOT, path).Some? <==> Resolve(ns, rings, ROOT, path).Some? || SameNames(path, q)
  }

  /** All that a new entry of a new name does. */
  lemma NewEntry(ns: Nodes, rings: Rings, next: Id, d: Id, name: string, done: seq<string>)
    requires TreeOk(ns, rings, next) && d in ns && Child(ns, rings[d], name) == None && '/' !in name
    requires Resolve(ns, rings, ROOT, done) == Some(d)
    ensures Addable(ns, d)
    ensures var ns', rings' := NodesWith(ns, d, next, name), RingsWith(rings, d, next);
            && TreeOk(ns', rings', next + 1) && next in ns'
            && Extends(ns, rings, ns', rings') && GrowsBy(ns, rings, ns', rings', done + [name])
            && Resolve(ns', rings', ROOT, done + [name]) == Some(next)
  {
    NewKeeps(ns, rings, next, d, name);
    forall path: seq<string>
      ensures Resolve(NodesWith(ns, d, next, name), RingsWith(rings, d, next), ROOT, path) ==
              if SameNames(path, done + [name]) then Some(next) else Resolve(ns, rings, ROOT, path)
      ensures SameNames(path, done + [name]) ==> Resolve(ns, rings, ROOT, path) == None
    {
      NewPath(ns, rings, next, d, name, done, path);
    }
    assert SameNames(done + [name], done + [name]);
  }

  lemma NewPath(ns: Nodes, rings: Rings, next: Id, d: Id, name: string, done: seq<string>, path: seq<string>)
    requires TreeOk(ns, rings, next) && Addable(ns, d) && Child(ns, rings[d], name) == None
    requires Resolve(ns, rings, ROOT, done) == Some(d)
    ensures Resolve(NodesWith(ns, d, next, name), RingsWith(rings, d, next), ROOT, path) ==
            if SameNames(path, done + [name]) then Some(next) else Resolve(ns, rings, ROOT, path)
    ensures SameNames(path, done + [name]) ==> Resolve(ns, rings, ROOT, path) == None
  {
    NewResolves(ns, rings, next, d, name, ROOT, path);
    RestExact(ns, rings, next, d, name, done, path);
    if Rest(ns, rings, d, name, ROOT, path).Some? {
      RestUnresolved(ns, rings, d, name, ROOT, path);
    }
    assert |path| == |done| + 1 ==> path[..|done| + 1] == path;
  }

  /** The new entry has a sibling of its name. */
  ghost predicate HasTwin(ns: Nodes, rings: Rings, p: Id) {
    exists x :: IsTwin(ns, rings, p, x)
  }

  ghost predicate IsTwin(ns: Nodes, rings: Rings, p: Id, x: Id) {
    && p in ns && x in ns && x != p && ns[x].name == ns[p].name
    && ns[p].parent.Some? && ns[p].parent.value in rings && x in rings[ns[p].parent.value]
  }

  /** Of two siblings of one name only one can be reached. */
  lemma TwinUnreachable(ns: Nodes, rings: Rings, next: Id, p: Id, x: Id, path: seq<string>, other: seq<string>)
    requires TreeOk(ns, rings, next) && IsTwin(ns, rings, p, x) && Resolve(ns, rings, ROOT, path) == Some(p)
    ensures Resolve(ns, rings, ROOT, other) != Some(x)
  {
    Parented(ns, ns[p].parent.value, rings[ns[p].parent.value], x);
    if Resolve(ns, rings, ROOT, other) == Some(x) {
      var d := LastStep(ns, rings, next, path, p);
      var e := LastStep(ns, rings, next, other, x);
      PathUnique(ns, rings, next, path[..|path| - 1], other[..|other| - 1], d);
      SameSnoc(path, other);
      ResolveSame(ns, rings, ROOT, path, other);
    }
  }

  /**
   * A new entry of a name that another child has. It is found under its path exactly if the
   * other is not the first child, and then, and only then, the other is lost.
   */
  lemma TwinEntry(ns: Nodes, rings: Rings, next: Id, d: Id, name: string, done: seq<string>)
    requires TreeOk(ns, rings, next) && Addable(ns, d) && Child(ns, rings[d], name).Some?
    requires Resolve(ns, rings, ROOT, done) == Some(d)
    ensures var ns', rings' := NodesWith(ns, d, next, name), RingsWith(rings, d, next);
            var c := Child(ns, rings[d], name);
            && Resolve(ns', rings', ROOT, done + [name]) == (if ns[d].child == c then c else Some(next))
            && (Extends(ns, rings, ns', rings') <==> ns[d].child == c)
  {
    var ns', rings' := NodesWith(ns, d, next, name), RingsWith(rings, d, next);
    var path, c := done + [name], Child(ns, rings[d], name);
    assert Ring(ns, d, rings[d]);
    assert Heads(ns, rings[d], name) <==> ns[d].child == c;
    ResolveSnoc(ns, rings, ROOT, done, name, d);
    if Heads(ns, rings[d], name) {
      forall p: seq<string>
        ensures Resolve(ns', rings', ROOT, p) == Resolve(ns, rings, ROOT, p)
      {
        HiddenResolves(ns, rings, next, d, name, ROOT, p);
      }
    } else {
      NewResolves(ns, rings, next, d, name, ROOT, path);
      assert path[..|done|] == done;
      RestAlong(ns, rings, next, d, name, ROOT, path, |done|);
      assert Resolve(ns, rings, ROOT, path) == c;
    }
  }

  // ------------------------------------------------- removing an entry

  function NodesLess(ns: Nodes, d: Id, p: Id): Nodes
    requires Deletable(ns, d, p)
  {
    Deleted(ns, d, p) - {p}
  }

  function RingsLess(rings: Rings, d: Id, i: nat): Rings
    requires d in rings && i < |rings[d]|
  {
    (rings - {rings[d][i]})[d := Without(rings[d], i)]
  }

  lemma DelRing(ns: Nodes, d: Id, r: seq<Id>, i: nat)
    requires Ring(ns, d, r) && i < |r|
    ensures Deletable(ns, d, r[i]) && Ring(NodesLess(ns, d, r[i]), d, Without(r, i))
  {
    DelRemoves(ns, d, r, i);
    var ns1 := Deleted(ns, d, r[i]);
    forall x | x in Without(r, i)
      ensures x != r[i]
    {
      WithoutMembers(r, i, x);
    }
    RingFrame(ns1, ns1 - {r[i]}, d, Without(r, i));
  }

  /** Removing an entry of d leaves the links of other directories' entries alone. */
  lemma DelFrame(ns: Nodes, d: Id, r: seq<Id>, i: nat, x: Id)
    requires Ring(ns, d, r) && i < |r| && Deletable(ns, d, r[i]) && x in ns && ns[x].parent != Some(d)
    ensures x != r[i] && SameLinks(ns, NodesLess(ns, d, r[i]), x)
  {
    DelEnabled(ns, d, r, i);
    Parented(ns, d, r, r[i]);
    Parented(ns, d, r, r[Pred(i, |r|)]);
    Parented(ns, d, r, r[Succ(i, |r|)]);
  }

  lemma DelHead(ns: Nodes, d: Id, p: Id, e: Id)
    requires Deletable(ns, d, p) && e in ns && e != d && e != p
    ensures e in NodesLess(ns, d, p) && NodesLess(ns, d, p)[e].child == ns[e].child
  {
  }

  lemma DelOthers(ns: Nodes, rings: Rings, next: Id, d: Id, i: nat, e: Id)
    requires TreeOk(ns, rings, next) && d in rings && i < |rings[d]| && e in rings && e != d && e != rings[d][i]
    requires Deletable(ns, d, rings[d][i])
    ensures Ring(NodesLess(ns, d, rings[d][i]), e, rings[e]) && rings[d][i] !in rings[e]
  {
    var r, p, ns' := rings[e], rings[d][i], NodesLess(ns, d, rings[d][i]);
    assert Ring(ns, d, rings[d]) && Ring(ns, e, r);
    forall x | x in r
      ensures x != p && SameLinks(ns, ns', x)
    {
      Parented(ns, e, r, x);
      DelFrame(ns, d, rings[d], i, x);
    }
    DelHead(ns, d, p, e);
    RingFrame(ns, ns', e, r);
  }

  lemma DelNames(ns: Nodes, d: Id, p: Id, x: Id)
    requires Deletable(ns, d, p) && x in ns && x != p
    ensures x in NodesLess(ns, d, p)
    ensures NodesLess(ns, d, p)[x].name == ns[x].name && NodesLess(ns, d, p)[x].parent == ns[x].parent
    ensures NodesLess(ns, d, p).Keys == ns.Keys - {p}
  {
  }

  /** The children of a directory after a removal: as before, less the entry removed. */
  lemma DelMembers(ns: Nodes, rings: Rings, next: Id, d: Id, i: nat, e: Id, x: Id)
    requires TreeOk(ns, rings, next) && d in rings && i < |rings[d]| && e in rings && e != rings[d][i]
    ensures x in RingsLess(rings, d, i)[e] <==> x in rings[e] && x != rings[d][i]
  {
    assert Ring(ns, d, rings[d]);
    if e == d {
      WithoutMembers(rings[d], i, x);
    } else {
      DelEnabled(ns, d, rings[d], i);
      DelOthers(ns, rings, next, d, i, e);
    }
  }

  lemma DelKeys(ns: Nodes, rings: Rings, next: Id, d: Id, i: nat)
    requires TreeOk(ns, rings, next) && d in rings && i < |rings[d]| && Deletable(ns, d, rings[d][i])
    ensures var ns', rings' := NodesLess(ns, d, rings[d][i]), RingsLess(rings, d, i);
            && ROOT in ns' && ns'[ROOT].parent == None && ns'.Keys == rings'.Keys
            && forall e :: e in ns' ==> e < next && '/' !in ns'[e].name
  {
    var p := rings[d][i];
    assert Ring(ns, d, rings[d]);
    Parented(ns, d, rings[d], p);
    DelNames(ns, d, p, ROOT);
    forall e | e in ns && e != p
      ensures '/' !in NodesLess(ns, d, p)[e].name
    {
      DelNames(ns, d, p, e);
    }
  }

  lemma DelKeeps(ns: Nodes, rings: Rings, next: Id, d: Id, i: nat)
    requires TreeOk(ns, rings, next) && d in rings && i < |rings[d]|
    ensures Deletable(ns, d, rings[d][i]) && TreeOk(NodesLess(ns, d, rings[d][i]), RingsLess(rings, d, i), next)
  {
    var p := rings[d][i];
    DelRing(ns, d, rings[d], i);
    DelKeys(ns, rings, next, d, i);
    var ns', rings' := NodesLess(ns, d, p), RingsLess(rings, d, i);
    forall e | e in rings'
      ensures Ring(ns', e, rings'[e])
    {
      if e != d {
        DelOthers(ns, rings, next, d, i, e);
      }
    }
    forall e, x | e in rings' && x in rings'[e]
      ensures e < x
    {
      DelMembers(ns, rings, next, d, i, e, x);
    }
  }

  /** The path from d goes through p. */
  ghost predicate Passes(ns: Nodes, rings: Rings, d: Id, path: seq<string>, p: Id)
    decreases |path|
  {
    path != [] && d in rings
    && var c := Child(ns, rings[d], path[0]); c.Some? && (c.value == p || Passes(ns, rings, c.value, path[1..], p))
  }

  /** What goes through an entry leads to it or to a later one. */
  lemma {:induction false} PassesDescends(ns: Nodes, rings: Rings, next: Id, d: Id, path: seq<string>, p: Id, x: Id)
    requires TreeOk(ns, rings, next) && d in ns && Passes(ns, rings, d, path, p)
    requires Resolve(ns, rings, d, path) == Some(x)
    ensures p <= x
    decreases |path|
  {
    var c := Child(ns, rings[d], path[0]).value;
    assert Ring(ns, d, rings[d]);
    if c != p {
      PassesDescends(ns, rings, next, c, path[1..], p, x);
    } else if path[1..] != [] {
      Descends(ns, rings, next, c, path[1..], x);
    }
  }

  /** From an entry made later than its directory no path goes through p. */
  lemma {:induction false} PassesParent(ns: Nodes, rings: Rings, next: Id, e: Id, path: seq<string>, d: Id, p: Id)
    requires TreeOk(ns, rings, next) && e in ns && p in ns && ns[p].parent == Some(d) && d < e
    ensures !Passes(ns, rings, e, path, p)
    decreases |path|
  {
    if path != [] {
      var c := Child(ns, rings[e], path[0]);
      if c.Some? {
        Parented(ns, e, rings[e], c.value);
        PassesParent(ns, rings, next, c.value, path[1..], d, p);
      }
    }
  }

  /** The child found after a removal: the one found before unless that was removed, and then another of the name. */
  lemma DelChildren(ns: Nodes, rings: Rings, next: Id, d: Id, i: nat, e: Id, n: string)
    requires TreeOk(ns, rings, next) && d in rings && i < |rings[d]| && e in rings && e != rings[d][i]
    requires Deletable(ns, d, rings[d][i])
    ensures var c := Child(ns, rings[e], n);
            Child(NodesLess(ns, d, rings[d][i]), RingsLess(rings, d, i)[e], n) ==
            if c == Some(rings[d][i]) then Child(ns, Without(rings[d], i), n) else c
  {
    var p, ns', r' := rings[d][i], NodesLess(ns, d, rings[d][i]), RingsLess(rings, d, i)[e];
    assert Ring(ns, e, rings[e]) && Ring(ns, d, rings[d]);
    forall x | x in r'
      ensures x in ns && x in ns' && ns'[x].name == ns[x].name
    {
      DelMembers(ns, rings, next, d, i, e, x);
      DelNames(ns, d, p, x);
    }
    ChildFrame(ns, ns', r', n);
    if e == d {
      if Child(ns, rings[d], n) != Some(p) {
        ChildWithout(ns, rings[d], i, n);
      }
    } else {
      DelMembers(ns, rings, next, d, i, e, p);
      DelOthers(ns, rings, next, d, i, e);
    }
  }

  /** Paths that do not go through the entry removed lead where they did. */
  lemma {:induction false} DelAvoids(ns: Nodes, rings: Rings, next: Id, d: Id, i: nat, e: Id, path: seq<string>)
    requires TreeOk(ns, rings, next) && d in rings && i < |rings[d]| && e != rings[d][i]
    requires Deletable(ns, d, rings[d][i]) && !Passes(ns, rings, e, path, rings[d][i])
    ensures Resolve(NodesLess(ns, d, rings[d][i]), RingsLess(rings, d, i), e, path) == Resolve(ns, rings, e, path)
    decreases |path|
  {
    var rings' := RingsLess(rings, d, i);
    assert e in rings' <==> e in rings;
    if path != [] && e in rings {
      DelChildren(ns, rings, next, d, i, e, path[0]);
      var c := Child(ns, rings[e], path[0]);
      if c.Some? {
        DelAvoids(ns, rings, next, d, i, c.value, path[1..]);
      }
    }
  }

  /** A path that goes through the entry is its path and more. */
  lemma {:induction false} PassesSplits(ns: Nodes, rings: Rings, d: Id, path: seq<string>, p: Id) returns (k: nat)
    requires Passes(ns, rings, d, path, p)
    ensures 0 < k <= |path| && Resolve(ns, rings, d, path[..k]) == Some(p)
    decreases |path|
  {
    if Child(ns, rings[d], path[0]).value == p {
      k := 1;
      assert path[..1][1..] == [];
    } else {
      var j := PassesSplits(ns, rings, Child(ns, rings[d], path[0]).value, path[1..], p);
      k := j + 1;
      assert path[..k][1..] == path[1..][..j];
    }
  }

  /** The path to the entry removed leads to another of its name, if there is one. */
  lemma DelThrough(ns: Nodes, rings: Rings, next: Id, d: Id, i: nat,
                   done: seq<string>, name: string, rest: seq<string>)
    requires TreeOk(ns, rings, next) && d in rings && i < |rings[d]| && Deletable(ns, d, rings[d][i])
    requires Resolve(ns, rings, ROOT, done) == Some(d) && Child(ns, rings[d], name) == Some(rings[d][i])
    ensures Resolve(NodesLess(ns, d, rings[d][i]), RingsLess(rings, d, i), ROOT, done + [name] + rest) ==
            var twin := Child(ns, Without(rings[d], i), name);
            if twin.None? then None else Resolve(ns, rings, twin.value, rest)
  {
    var p, ns', rings' := rings[d][i], NodesLess(ns, d, rings[d][i]), RingsLess(rings, d, i);
    assert Ring(ns, d, rings[d]);
    Parented(ns, d, rings[d], p);
    if Passes(ns, rings, ROOT, done, p) {
      PassesDescends(ns, rings, next, ROOT, done, p, d);
    }
    DelAvoids(ns, rings, next, d, i, ROOT, done);
    ResolveSnoc(ns', rings', ROOT, done, name, d);
    DelChildren(ns, rings, next, d, i, d, name);
    ResolveJoin(ns', rings', ROOT, done + [name], rest);
    var twin := Child(ns, Without(rings[d], i), name);
    if twin.Some? {
      WithoutMembers(rings[d], i, twin.value);
      PassesParent(ns, rings, next, twin.value, rest, d, p);
      DelAvoids(ns, rings, next, d, i, twin.value, rest);
    }
  }

  /** The other of the name is a twin. */
  lemma TwinIs(ns: Nodes, rings: Rings, next: Id, d: Id, i: nat, name: string)
    requires TreeOk(ns, rings, next) && d in rings && i < |rings[d]| && Child(ns, rings[d], name) == Some(rings[d][i])
    ensures var twin := Child(ns, Without(rings[d], i), name);
            && (twin.Some? ==> IsTwin(ns, rings, rings[d][i], twin.value))
            && (twin.None? ==> !HasTwin(ns, rings, rings[d][i]))
  {
    var r, p := rings[d], rings[d][i];
    assert Ring(ns, d, r);
    Parented(ns, d, r, p);
    forall x
      ensures x in Without(r, i) <==> x in r && x != p
    {
      WithoutMembers(r, i, x);
    }
  }
}
