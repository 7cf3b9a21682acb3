/**
 * The hot-swappable counters of usr/intctr.C and usr/intctr.H: one shared value, or one value
 * per virtual processor, and the transfer of the count when one implementation replaces the
 * other while calls are held off.
 */
module IntCtr {
  import opened Prelude

  type Vp = nat

  /** `local` holds the representatives that exist. */
  datatype Counter = Shared(value: int) | Partitioned(local: map<Vp, int>)

  /** The types of transfer. */
  datatype Kind = CanonicalVal | CanonicalRef | PartitionedVal | PartitionedRef

  /** What one VP hands over: a value, or a reference to a value of the old counter. */
  datatype Data = Val(v: int) | RefShared | RefLocal(vp: Vp)

  predicate Exports(c: Counter, k: Kind) {
    match c
    case Shared(_) => k == CanonicalVal || k == CanonicalRef
    case Partitioned(_) => k == CanonicalVal || k == PartitionedVal || k == PartitionedRef
  }

  // ------------------------------------------------- sums over representatives

  ghost function Total(m: map<Vp, int>, keys: set<Vp>): int
    requires keys <= m.Keys
    decreases |keys|
  {
    if keys == {} then 0 else
    var v :| v in keys;
    m[v] + Total(m, keys - {v})
  }

  /** The sum does not depend on the order in which it is taken. */
  lemma {:induction false} TotalSplit(m: map<Vp, int>, keys: set<Vp>, v: Vp)
    requires keys <= m.Keys && v in keys
    ensures Total(m, keys) == m[v] + Total(m, keys - {v})
    decreases |keys|
  {
    var u :| u in keys && Total(m, keys) == m[u] + Total(m, keys - {u});
    if u != v {
      TotalSplit(m, keys - {u}, v);
      TotalSplit(m, keys - {v}, u);
      assert keys - {u} - {v} == keys - {v} - {u};
    }
  }

  lemma {:induction false} TotalSame(m: map<Vp, int>, n: map<Vp, int>, keys: set<Vp>)
    requires keys <= m.Keys && keys <= n.Keys && forall v :: v in keys ==> m[v] == n[v]
    ensures Total(m, keys) == Total(n, keys)
    decreases |keys|
  {
    if keys != {} {
      var v :| v in keys;
      TotalSplit(m, keys, v);
      TotalSplit(n, keys, v);
      TotalSame(m, n, keys - {v});
    }
  }

  /** value() */
  ghost function Value(c: Counter): int {
    match c
    case Shared(v) => v
    case Partitioned(local) => Total(local, local.Keys)
  }

  /** value() of the partitioned counter: the loop over the representatives. */
  method ReadValue(c: Counter) returns (count: int)
    ensures count == Value(c)
  {
    match c
    case Shared(v) =>
      count := v;
    case Partitioned(local) =>
      count := 0;
      var left := local.Keys;
      while left != {}
        invariant left <= local.Keys && count + Total(local, left) == Value(c)
        decreases |left|
      {
        var v :| v in left;
        TotalSplit(local, left, v);
        count := count + local[v];
        left := left - {v};
      }
  }

  /** inc() and dec() on a VP, which has a representative of its own if there is one per VP. */
  function Add(c: Counter, vp: Vp, amount: int): Counter {
    match c
    case Shared(v) => Shared(v + amount)
    case Partitioned(local) => Partitioned(local[vp := (if vp in local then local[vp] else 0) + amount])
  }

  lemma AddCounts(c: Counter, vp: Vp, amount: int)
    ensures Value(Add(c, vp, amount)) == Value(c) + amount
  {
    if c.Partitioned? {
      var m, n := c.local, Add(c, vp, amount).local;
      TotalSplit(n, n.Keys, vp);
      TotalSame(m, n, m.Keys - {vp});
      assert n.Keys - {vp} == m.Keys - {vp};
      if vp in m {
        TotalSplit(m, m.Keys, vp);
      } else {
        assert m.Keys - {vp} == m.Keys;
      }
    }
  }

  // ------------------------------------------------- the transfer

  /**
   * One switch: the old counter, the new one, the set of VPs that used the old one, the VPs
   * that do the transfer, and how far each of them has got.
   */
  datatype Switch = Switch(
    was: Counter, now: Counter, kind: Kind, vps: set<Vp>, workers: set<Vp>, exported: map<Vp, Data>, imported: set<Vp>)

  datatype Action = Export(vp: Vp) | Import(vp: Vp)

  predicate Enabled(s: Switch, a: Action) {
    match a
    case Export(v) => v in s.workers && v !in s.exported
    case Import(v) => v in s.exported && v !in s.imported
  }

  /** dataTransferExport */
  ghost function Exported(c: Counter, k: Kind, vp: Vp): Data
    requires Exports(c, k)
  {
    match k
    case CanonicalVal => Val(Value(c))
    case CanonicalRef => RefShared
    case PartitionedVal => Val(if vp in c.local then c.local[vp] else 0)
    case PartitionedRef => RefLocal(vp)
  }

  /** *ptr(), read from the old counter. */
  function Follow(c: Counter, d: Data): int {
    match d
    case Val(v) => v
    case RefShared => if c.Shared? then c.value else 0
    case RefLocal(vp) => if c.Partitioned? && vp in c.local then c.local[vp] else 0
  }

  /** dataTransferImport on `vp`: canonical types on the first VP of the set (VPSet::firstVP) only. */
  ghost function Imported(c: Counter, k: Kind, vp: Vp, first: bool, v: int): Counter {
    match c
    case Shared(value) =>
      if k == CanonicalVal || k == CanonicalRef then (if first then Shared(v) else c) else Shared(value + v)
    case Partitioned(local) =>
      if k == CanonicalVal || k == CanonicalRef then (if first then Partitioned(local[vp := v]) else c)
      else Partitioned(local[vp := v])
  }

  ghost function Apply(s: Switch, a: Action): Switch
    requires Enabled(s, a) && Exports(s.was, s.kind)
  {
    match a
    case Export(v) => s.(exported := s.exported[v := Exported(s.was, s.kind, v)])
    case Import(v) =>
      s.(now := Imported(s.now, s.kind, v, IsLeast(s.vps, v), Follow(s.was, s.exported[v])),
         imported := s.imported + {v})
  }

  /**
   * A new counter, not yet used; every representative of the old one in the set; every VP of
   * the set does its part, and for an empty set the switching VP alone.
   */
  ghost predicate Begins(s: Switch) {
    && Exports(s.was, s.kind)
    && (s.now == Shared(0) || s.now == Partitioned(map[]))
    && (s.was.Partitioned? ==> s.was.local.Keys == s.vps)
    && (s.workers == s.vps || (s.vps == {} && |s.workers| == 1))
    && s.exported == map[] && s.imported == {}
  }

  ghost predicate Run(first: Switch, actions: seq<Action>, last: Switch)
    decreases |actions|
  {
    if actions == [] then first == last
    else
      && Exports(first.was, first.kind) && Enabled(first, actions[0])
      && Run(Apply(first, actions[0]), actions[1..], last)
  }

  // ------------------------------------------------- what every step keeps

  predicate Canonical(k: Kind) {
    k == CanonicalVal || k == CanonicalRef
  }

  /** What each VP at work hands over: a representative made for the transfer counts zero. */
  ghost function Shares(c: Counter, workers: set<Vp>): map<Vp, int> {
    map v | v in workers :: if c.Partitioned? && v in c.local then c.local[v] else 0
  }

  /** The new counter after the imports so far. */
  ghost predicate NowIs(s: Switch) {
    if Canonical(s.kind) then
      if exists v :: v in s.imported && IsLeast(s.vps, v) then Value(s.now) == Value(s.was) else Value(s.now) == 0
    else
      var shares := Shares(s.was, s.workers);
      && s.was.Partitioned? && s.imported <= s.workers
      && (s.now.Shared? ==> s.now.value == Total(shares, s.imported))
      && (s.now.Partitioned? ==>
            s.now.local.Keys == s.imported && forall v :: v in s.imported ==> s.now.local[v] == shares[v])
  }

  ghost predicate Inv(s: Switch) {
    && Exports(s.was, s.kind)
    && (s.was.Partitioned? ==> s.was.local.Keys == s.vps)
    && s.imported <= s.exported.Keys <= s.workers
    && (forall v :: v in s.exported ==> s.exported[v] == Exported(s.was, s.kind, v))
    && (Canonical(s.kind) && s.now.Partitioned? ==>
          forall v :: v in s.now.local ==> v in s.imported && IsLeast(s.vps, v))
    && NowIs(s)
  }

  lemma OneRep(m: map<Vp, int>, v: Vp)
    requires m.Keys == {v}
    ensures Total(m, m.Keys) == m[v]
  {
  }

  lemma ImportKeepsCanonical(s: Switch, v: Vp)
    requires Inv(s) && Canonical(s.kind) && Enabled(s, Import(v))
    ensures Inv(Apply(s, Import(v)))
  {
    var s' := Apply(s, Import(v));
    assert Follow(s.was, s.exported[v]) == Value(s.was);
    if IsLeast(s.vps, v) {
      assert v in s'.imported;
      if s.now.Partitioned? {
        assert s'.now.local.Keys == {v};
        OneRep(s'.now.local, v);
      }
    } else {
      assert s'.now == s.now;
      assert forall u :: u in s'.imported && IsLeast(s.vps, u) ==> u in s.imported;
    }
  }

  lemma ImportKeepsPartitioned(s: Switch, v: Vp)
    requires Inv(s) && !Canonical(s.kind) && Enabled(s, Import(v))
    ensures Inv(Apply(s, Import(v)))
  {
    var s' := Apply(s, Import(v));
    var shares := Shares(s.was, s.workers);
    assert Follow(s.was, s.exported[v]) == shares[v];
    TotalSplit(shares, s'.imported, v);
    assert s'.imported - {v} == s.imported;
  }

  lemma Keeps(s: Switch, a: Action)
    requires Inv(s) && Enabled(s, a)
    ensures Inv(Apply(s, a))
  {
    if a.Import? {
      if Canonical(s.kind) {
        ImportKeepsCanonical(s, a.vp);
      } else {
        ImportKeepsPartitioned(s, a.vp);
      }
    }
  }

  lemma {:induction false} RunKeeps(first: Switch, actions: seq<Action>, last: Switch)
    requires Inv(first) && Run(first, actions, last)
    ensures Inv(last) && last == first.(now := last.now, exported := last.exported, imported := last.imported)
    decreases |actions|
  {
    if actions != [] {
      Keeps(first, actions[0]);
      RunKeeps(Apply(first, actions[0]), actions[1..], last);
    }
  }

  /** The shares add up to the old value. */
  lemma SharesAddUp(s: Switch)
    requires Begins(s) && s.was.Partitioned?
    ensures Total(Shares(s.was, s.workers), s.workers) == Value(s.was)
  {
    var shares := Shares(s.was, s.workers);
    if s.workers == s.vps {
      TotalSame(shares, s.was.local, s.vps);
    } else {
      var v :| v in s.workers;
      TotalSplit(shares, s.workers, v);
      assert |s.workers - {v}| == 0;
      assert s.workers - {v} == {};
    }
  }

  /**
   * When every VP has exported and imported, in whatever order, the new counter has the value of
   * the old one, exactly if the set is not empty or the value was zero: with an empty set nobody
   * is the first VP and a canonical value is dropped.
   */
  lemma SwitchKeepsValueExact(first: Switch, actions: seq<Action>, last: Switch)
    requires Begins(first) && Run(first, actions, last) && last.imported == first.workers
    ensures Value(last.now) == Value(first.was) <==> first.vps != {} || Value(first.was) == 0
  {
    assert Value(first.now) == 0;
    RunKeeps(first, actions, last);
    if Canonical(first.kind) {
      if first.vps != {} {
        var v := HasLeast(first.vps);
        assert v in last.imported && IsLeast(last.vps, v);
      }
    } else {
      SharesAddUp(first);
      if last.now.Partitioned? {
        TotalSame(Shares(last.was, last.workers), last.now.local, last.imported);
      }
    }
  }

  /** A shared counter that nobody has used since it got its value loses it in a switch. */
  lemma UntouchedSharedLoses(vp: Vp) returns (first: Switch, actions: seq<Action>, last: Switch)
    ensures Begins(first) && first.was == Shared(5) && first.vps == {} && first.workers == {vp}
    ensures Run(first, actions, last) && last.imported == first.workers && Value(last.now) == 0
  {
    first := Switch(Shared(5), Partitioned(map[]), CanonicalRef, {}, {vp}, map[], {});
    actions := [Export(vp), Import(vp)];
    var mid := Apply(first, actions[0]);
    last := Apply(mid, actions[1]);
    assert actions[1..] == [Import(vp)] && actions[1..][1..] == [];
    assert Run(last, [], last);
    assert Run(mid, actions[1..], last);
    assert Value(last.now) == 0;
  }
}
