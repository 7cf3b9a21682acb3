/**
 * The sibling rings of lib/lk/LinuxDevFS.C: the children of an entry form a circular doubly
 * linked list. Entries are named by identifiers, so the links and their aliasing are explicit.
 */
module DevRing {
  import opened Prelude

  type Id = nat

  datatype Node = Node(name: string, parent: Option<Id>, child: Option<Id>, left: Option<Id>, right: Option<Id>)

  type Nodes = map<Id, Node>

  function Succ(i: nat, n: nat): nat {
    if i + 1 == n then 0 else i + 1
  }

  function Pred(i: nat, n: nat): int {
    if i == 0 then n - 1 else i - 1
  }

  /** The children of d are the ring r: r[0] is `child`, `left` is the next one and `right` the one before. */
  ghost predicate Ring(ns: Nodes, d: Id, r: seq<Id>) {
    && d in ns && d !in r && Distinct(r)
    && ns[d].child == (if r == [] then None else Some(r[0]))
    && (forall x :: x in r ==> x in ns)
    && forall i :: 0 <= i < |r| ==> Linked(ns, d, r, i)
  }

  ghost predicate Linked(ns: Nodes, d: Id, r: seq<Id>, i: nat)
    requires i < |r|
  {
    && r[i] in ns && ns[r[i]].parent == Some(d)
    && ns[r[i]].left == Some(r[Succ(i, |r|)]) && ns[r[i]].right == Some(r[Pred(i, |r|)])
  }

  // ------------------------------------------------- addChild

  /** The links addChild follows are there. */
  predicate Addable(ns: Nodes, d: Id) {
    d in ns && (ns[d].child.Some? ==> var c := ns[d].child.value; c in ns && ns[c].left.Some? && ns[c].left.value in ns)
  }

  /** d->addChild(p) */
  function Added(ns: Nodes, d: Id, p: Id): Nodes
    requires Addable(ns, d) && p in ns && d != p
  {
    var ns := ns[p := ns[p].(parent := Some(d))];
    match ns[d].child
    case None =>
      var ns := ns[d := ns[d].(child := Some(p))];
      ns[p := ns[p].(left := Some(p), right := Some(p))]
    case Some(c) =>
      var last := ns[c].left.value;
      var ns := ns[p := ns[p].(right := Some(c), left := Some(last))];
      var ns := ns[last := ns[last].(right := Some(p))];
      ns[c := ns[c].(left := Some(p))]
  }

  /** The ring with p: to the left of the first child. */
  function Inserted(r: seq<Id>, p: Id): seq<Id> {
    if r == [] then [p] else [r[0], p] + r[1..]
  }

  lemma InsertedMembers(r: seq<Id>, p: Id, x: Id)
    ensures x in Inserted(r, p) <==> x in r || x == p
  {
  }

  lemma AddEnabled(ns: Nodes, d: Id, r: seq<Id>)
    requires Ring(ns, d, r)
    ensures Addable(ns, d) && (r != [] ==> ns[r[0]].left == Some(r[Succ(0, |r|)]))
  {
    if r != [] {
      assert Linked(ns, d, r, 0);
      assert Linked(ns, d, r, Succ(0, |r|));
    }
  }

  /** A new child joins the ring to the left of the first. */
  lemma AddInserts(ns: Nodes, d: Id, r: seq<Id>, p: Id)
    requires Ring(ns, d, r) && p in ns && p != d && p !in r
    ensures Addable(ns, d) && Ring(Added(ns, d, p), d, Inserted(r, p))
  {
    AddEnabled(ns, d, r);
    var ns', r' := Added(ns, d, p), Inserted(r, p);
    forall i | 0 <= i < |r'|
      ensures Linked(ns', d, r', i)
    {
      if r != [] && i != 1 {
        assert Linked(ns, d, r, if i == 0 then 0 else i - 1);
      }
    }
  }

  // ------------------------------------------------- delChild

  function Without(r: seq<Id>, i: nat): seq<Id>
    requires i < |r|
  {
    r[..i] + r[i + 1..]
  }

  /** The links delChild follows are there. */
  predicate Deletable(ns: Nodes, d: Id, p: Id) {
    && d in ns && p in ns && d != p
    && ns[p].left.Some? && ns[p].left.value in ns && ns[p].right.Some? && ns[p].right.value in ns
    && ns[p].left.value != d && ns[p].right.value != d
  }

  /** d->delChild(p) */
  function Deleted(ns: Nodes, d: Id, p: Id): Nodes
    requires Deletable(ns, d, p)
  {
    var left, right := ns[p].left.value, ns[p].right.value;
    var child := if ns[d].child == Some(p) && left == p then None
                 else if ns[d].child == Some(p) then Some(left) else ns[d].child;
    var ns := ns[d := ns[d].(child := child)];
    if child.None? then ns else
    var ns := ns[right := ns[right].(left := Some(left))];
    var ns := ns[left := ns[left].(right := Some(right))];
    ns[p := ns[p].(left := Some(p), right := Some(p))]
  }

  lemma DelEnabled(ns: Nodes, d: Id, r: seq<Id>, i: nat)
    requires Ring(ns, d, r) && i < |r|
    ensures Deletable(ns, d, r[i]) && ns[r[i]].left == Some(r[Succ(i, |r|)]) && ns[r[i]].right == Some(r[Pred(i, |r|)])
  {
    assert Linked(ns, d, r, i);
    assert Linked(ns, d, r, Pred(i, |r|));
    assert Linked(ns, d, r, Succ(i, |r|));
    assert r[i] in r && r[Pred(i, |r|)] in r && r[Succ(i, |r|)] in r;
  }

  /** A deleted child leaves the ring, and the others keep their order. */
  lemma DelRemoves(ns: Nodes, d: Id, r: seq<Id>, i: nat)
    requires Ring(ns, d, r) && i < |r|
    ensures Deletable(ns, d, r[i]) && Ring(Deleted(ns, d, r[i]), d, Without(r, i))
  {
    DelEnabled(ns, d, r, i);
    var ns', r' := Deleted(ns, d, r[i]), Without(r, i);
    forall k | 0 <= k < |r'|
      ensures Linked(ns', d, r', k)
    {
      var was := if k < i then k else k + 1;
      assert r'[k] == r[was];
      assert Linked(ns, d, r, was);
    }
  }

  lemma WithoutMembers(r: seq<Id>, i: nat, x: Id)
    requires Distinct(r) && i < |r|
    ensures x in Without(r, i) <==> x in r && x != r[i]
  {
  }

  // ------------------------------------------------- other rings

  ghost predicate SameLinks(ns: Nodes, ns': Nodes, x: Id) {
    x in ns && x in ns' && ns'[x].parent == ns[x].parent && ns'[x].left == ns[x].left && ns'[x].right == ns[x].right
  }

  /** A ring whose entries and head keep their links stays a ring. */
  lemma RingFrame(ns: Nodes, ns': Nodes, d: Id, r: seq<Id>)
    requires Ring(ns, d, r) && d in ns' && ns'[d].child == ns[d].child
    requires forall x :: x in r ==> SameLinks(ns, ns', x)
    ensures Ring(ns', d, r)
  {
    forall i | 0 <= i < |r|
      ensures Linked(ns', d, r, i)
    {
      assert Linked(ns, d, r, i);
      assert r[i] in r;
    }
  }

  // ------------------------------------------------- findChild

  /** strncmp(a, b, 64) == 0 for names that hold at most 64 characters. */
  function Short(name: string): string {
    if |name| <= 64 then name else name[..64]
  }

  /** The names have the same character, or both have ended, at i. */
  predicate SameAt(a: string, b: string, i: nat) {
    (i < |a| <==> i < |b|) && (i < |a| && i < |b| ==> a[i] == b[i])
  }

  /** Names are told apart by their first 64 characters, and by where they end before that. */
  lemma ShortExact(a: string, b: string)
    ensures Short(a) == Short(b) <==> forall i: nat :: i < 64 ==> SameAt(a, b, i)
  {
    if forall i: nat :: i < 64 ==> SameAt(a, b, i) {
      assert |a| < 64 ==> SameAt(a, b, |a|);
      assert |b| < 64 ==> SameAt(a, b, |b|);
      forall i: nat | i < |Short(a)|
        ensures Short(a)[i] == Short(b)[i]
      {
        assert SameAt(a, b, i);
      }
    }
    if Short(a) == Short(b) {
      forall i: nat | i < 64
        ensures SameAt(a, b, i)
      {
        assert i < |Short(a)| ==> Short(a)[i] == Short(b)[i];
      }
    }
  }

  predicate Named(ns: Nodes, x: Id, name: string) {
    x in ns && ns[x].name == Short(name)
  }

  /** The first entry of the ring that has the name. */
  function Child(ns: Nodes, r: seq<Id>, name: string): (c: Option<Id>)
    ensures c.Some? ==> c.value in r && Named(ns, c.value, name)
    ensures c.None? ==> forall x :: x in r ==> !Named(ns, x, name)
  {
    if r == [] then None else if Named(ns, r[0], name) then Some(r[0]) else Child(ns, r[1..], name)
  }

  /** findChild: from the first child to the left, all the way round. */
  method FindChild(ns: Nodes, d: Id, name: string, ghost r: seq<Id>) returns (found: Option<Id>)
    requires Ring(ns, d, r)
    ensures found == Child(ns, r, name)
  {
    if ns[d].child.None? {
      return None;
    }
    var first := ns[d].child.value;
    var curr := first;
    ghost var k := 0;
    while true
      invariant 0 <= k < |r| && curr == r[k]
      invariant Child(ns, r[k..], name) == Child(ns, r, name)
      decreases |r| - k
    {
      assert Linked(ns, d, r, k);
      if ns[curr].name == Short(name) {
        return Some(curr);
      }
      curr := ns[curr].left.value;
      if curr == first {
        assert r[k..][1..] == [];
        return None;
      }
      assert r[k..][1..] == r[k + 1..];
      k := k + 1;
    }
  }

  lemma {:induction false} ChildSame(ns: Nodes, r: seq<Id>, m: string, n: string)
    requires Short(m) == Short(n)
    ensures Child(ns, r, m) == Child(ns, r, n)
  {
    if r != [] {
      ChildSame(ns, r[1..], m, n);
    }
  }

  lemma {:induction false} ChildFrame(ns: Nodes, ns': Nodes, r: seq<Id>, n: string)
    requires forall x :: x in r ==> x in ns && x in ns' && ns'[x].name == ns[x].name
    ensures Child(ns', r, n) == Child(ns, r, n)
  {
    if r != [] {
      ChildFrame(ns, ns', r[1..], n);
    }
  }

  /** The first child has the name. */
  predicate Heads(ns: Nodes, r: seq<Id>, name: string) {
    r != [] && Named(ns, r[0], name)
  }

  /** A new child is found under its name unless the first child has it too. */
  lemma ChildInserted(ns: Nodes, r: seq<Id>, p: Id, n: string)
    ensures Child(ns, Inserted(r, p), n) ==
            if Named(ns, p, n) && !Heads(ns, r, n) then Some(p) else Child(ns, r, n)
  {
    var r' := Inserted(r, p);
    if r == [] {
      assert r'[1..] == [];
    } else {
      assert r'[1..][1..] == r[1..];
    }
  }

  /** A child that findChild does not give can go. */
  lemma {:induction false} ChildWithout(ns: Nodes, r: seq<Id>, i: nat, n: string)
    requires i < |r| && Child(ns, r, n) != Some(r[i])
    ensures Child(ns, Without(r, i), n) == Child(ns, r, n)
  {
    if i == 0 {
      assert Without(r, 0) == r[1..];
    } else if !Named(ns, r[0], n) {
      assert Without(r, i)[1..] == Without(r[1..], i - 1);
      ChildWithout(ns, r[1..], i - 1, n);
    }
  }
}
