/**
 * lib/lk/LinuxDevFS.C: directories made, devices registered and entries removed along a path.
 */
module DevFs {
  import opened Prelude
  import opened DevRing
  import opened DevTree

  // ------------------------------------------------- names of paths

  /** strchr(s + x, '/'), or the end of s. */
  function NextSlash(s: string, x: nat): (q: nat)
    requires x <= |s|
    ensures x <= q <= |s| && (q < |s| ==> s[q] == '/')
    decreases |s| - x
  {
    if x == |s| || s[x] == '/' then x else NextSlash(s, x + 1)
  }

  lemma {:induction false} NextIsFirst(s: string, x: nat, i: nat)
    requires x <= |s| && x <= i < NextSlash(s, x)
    ensures s[i] != '/'
    decreases i - x
  {
    if x < i {
      NextIsFirst(s, x + 1, i);
    }
  }

  /** Up to a slash the rest of the path does not matter. */
  lemma {:induction false} NextInPrefix(s: string, x: nat, q: nat, t: string)
    requires x <= q < |s| && s[q] == '/' && t == s[..q]
    ensures NextSlash(s, x) <= q && NextSlash(t, x) == NextSlash(s, x)
    decreases q - x
  {
    if x < q && s[x] != '/' {
      NextInPrefix(s, x + 1, q, t);
    }
  }

  /** The components of a path from x on. */
  function SplitFrom(s: string, x: nat): (parts: seq<string>)
    requires x <= |s|
    ensures |parts| > 0
    decreases |s| - x
  {
    var q := NextSlash(s, x);
    if q == |s| then [s[x..]] else [s[x..q]] + SplitFrom(s, q + 1)
  }

  function Split(s: string): (parts: seq<string>)
    ensures |parts| > 0
  {
    SplitFrom(s, 0)
  }

  lemma {:induction false} SplitNoSlash(s: string, x: nat, i: nat)
    requires x <= |s| && i < |SplitFrom(s, x)|
    ensures '/' !in SplitFrom(s, x)[i]
    decreases |s| - x
  {
    var q := NextSlash(s, x);
    if i > 0 {
      SplitNoSlash(s, q + 1, i - 1);
    } else {
      forall j | x <= j < q
        ensures s[j] != '/'
      {
        NextIsFirst(s, x, j);
      }
    }
  }

  /** The components, with slashes between them. */
  function Join(parts: seq<string>): string {
    if |parts| == 0 then "" else if |parts| == 1 then parts[0] else parts[0] + "/" + Join(parts[1..])
  }

  /** Nothing is lost: the components joined again are the path. */
  lemma {:induction false} JoinFrom(s: string, x: nat)
    requires x <= |s|
    ensures Join(SplitFrom(s, x)) == s[x..]
    decreases |s| - x
  {
    var q := NextSlash(s, x);
    if q < |s| {
      JoinFrom(s, q + 1);
      var rest := SplitFrom(s, q + 1);
      assert ([s[x..q]] + rest)[1..] == rest;
      assert s[x..] == s[x..q] + "/" + s[q + 1..];
    }
  }

  lemma JoinSplit(s: string)
    ensures Join(Split(s)) == s && forall i :: 0 <= i < |Split(s)| ==> '/' !in Split(s)[i]
  {
    JoinFrom(s, 0);
    forall i | 0 <= i < |Split(s)|
      ensures '/' !in Split(s)[i]
    {
      SplitNoSlash(s, 0, i);
    }
  }

  /** A path is what is before a slash, and what is after it. */
  lemma {:induction false} SplitAt(s: string, x: nat, q: nat, t: string)
    requires x <= q < |s| && s[q] == '/' && t == s[..q]
    ensures SplitFrom(s, x) == SplitFrom(t, x) + SplitFrom(s, q + 1)
    decreases q - x
  {
    var k := NextSlash(s, x);
    NextInPrefix(s, x, q, t);
    if k < q {
      SplitAt(s, k + 1, q, t);
      SplitInside(s, x, k, q, t, SplitFrom(s, q + 1));
    } else {
      SplitThere(s, x, q, t);
    }
  }

  lemma SplitInside(s: string, x: nat, k: nat, q: nat, t: string, rest: seq<string>)
    requires x <= k < q < |s| && t == s[..q] && k == NextSlash(s, x) == NextSlash(t, x)
    requires SplitFrom(s, k + 1) == SplitFrom(t, k + 1) + rest
    ensures SplitFrom(s, x) == SplitFrom(t, x) + rest
  {
    var head := s[x..k];
    assert t[x..k] == head;
    JoinAssoc([head], SplitFrom(t, k + 1), rest);
  }

  lemma SplitThere(s: string, x: nat, q: nat, t: string)
    requires x <= q < |s| && t == s[..q] && q == NextSlash(s, x) == NextSlash(t, x)
    ensures SplitFrom(s, x) == SplitFrom(t, x) + SplitFrom(s, q + 1)
  {
    assert t[x..] == s[x..q];
  }

  lemma JoinAssoc(a: seq<string>, b: seq<string>, c: seq<string>)
    ensures a + (b + c) == (a + b) + c
  {
  }

  /** The scan the walks do: cut the path at each slash. */
  method Components(name: string) returns (parts: seq<string>)
    ensures parts == Split(name)
  {
    var x := 0;
    parts := [];
    var slash := NextSlash(name, x);
    while slash < |name|
      invariant x <= |name| && slash == NextSlash(name, x) && parts + SplitFrom(name, x) == Split(name)
      decreases |name| - x
    {
      parts := parts + [name[x..slash]];
      x := slash + 1;
      slash := NextSlash(name, x);
    }
    parts := parts + [name[x..]];
  }

  /** No component is empty. */
  predicate AllFull(parts: seq<string>) {
    forall i :: 0 <= i < |parts| ==> |parts[i]| > 0
  }

  /** k42devfs_register skips empty components. */
  function NonEmpty(parts: seq<string>): (r: seq<string>)
    ensures AllFull(r) && |r| <= |parts|
  {
    if parts == [] then []
    else NonEmpty(parts[..|parts| - 1]) + (if |parts[|parts| - 1]| == 0 then [] else [parts[|parts| - 1]])
  }

  lemma {:induction false} NonEmptyAll(parts: seq<string>)
    requires AllFull(parts)
    ensures NonEmpty(parts) == parts
  {
    if parts != [] {
      NonEmptyAll(parts[..|parts| - 1]);
      assert parts == parts[..|parts| - 1] + [parts[|parts| - 1]];
    }
  }

  /** The components before the first empty one come first. */
  lemma {:induction false} NonEmptyBegins(parts: seq<string>, m: nat)
    requires m <= |parts| && AllFull(parts[..m])
    ensures |NonEmpty(parts)| >= m
    decreases |parts|
  {
    if m == |parts| {
      assert parts[..m] == parts;
      NonEmptyAll(parts);
    } else {
      assert parts[..|parts| - 1][..m] == parts[..m];
      NonEmptyBegins(parts[..|parts| - 1], m);
    }
  }

  lemma NonEmptySnoc(parts: seq<string>, k: nat)
    requires k < |parts|
    ensures NonEmpty(parts[..k + 1]) == NonEmpty(parts[..k]) + (if |parts[k]| == 0 then [] else [parts[k]])
  {
    assert parts[..k + 1][..k] == parts[..k];
  }

  /** The path names a beginning of q. */
  ghost predicate Begins(path: seq<string>, q: seq<string>) {
    |path| <= |q| && SameNames(path, q[..|path|])
  }

  /** Skipping empty components leaves a beginning of the path exactly if there is none to skip. */
  lemma SkipsExactly(parts: seq<string>)
    requires parts != [] && |parts[|parts| - 1]| > 0
    ensures Begins(NonEmpty(parts), parts) <==> AllFull(parts)
  {
    if AllFull(parts) {
      NonEmptyAll(parts);
      assert parts[..|parts|] == parts;
    } else {
      var m := FirstEmpty(parts);
      LongerThan(parts, m);
      DiffersAt(NonEmpty(parts), parts, m);
    }
  }

  lemma DiffersAt(r: seq<string>, parts: seq<string>, m: nat)
    requires m < |r| && AllFull(r) && m < |parts| && |parts[m]| == 0
    ensures !Begins(r, parts)
  {
    if |r| <= |parts| {
      assert parts[..|r|][m] == parts[m] && |Short(r[m])| > 0;
    }
  }

  lemma LongerThan(parts: seq<string>, m: nat)
    requires m < |parts| - 1 && AllFull(parts[..m]) && |parts[|parts| - 1]| > 0
    ensures |NonEmpty(parts)| > m
  {
    var k := |parts| - 1;
    assert parts[..k][..m] == parts[..m];
    NonEmptyBegins(parts[..k], m);
  }

  lemma FirstEmpty(parts: seq<string>) returns (m: nat)
    requires !AllFull(parts)
    ensures m < |parts| && |parts[m]| == 0 && AllFull(parts[..m])
  {
    m := 0;
    while |parts[m]| > 0
      invariant m < |parts| && AllFull(parts[..m]) && exists i :: m <= i < |parts| && |parts[i]| == 0
      decreases |parts| - m
    {
      m := m + 1;
    }
  }

  // ------------------------------------------------- growing along a path

  /** Exactly the paths that led somewhere, and those along q, lead somewhere. */
  ghost predicate GrowsAlong(ns: Nodes, rings: Rings, ns': Nodes, rings': Rings, q: seq<string>) {
    forall path :: Resolve(ns', rings', ROOT, path).Some? <==> Resolve(ns, rings, ROOT, path).Some? || Begins(path, q)
  }

  lemma GrowsOn(ns: Nodes, rings: Rings, ns1: Nodes, rings1: Rings, ns2: Nodes, rings2: Rings, q: seq<string>, k: nat)
    requires k < |q| && GrowsAlong(ns, rings, ns1, rings1, q[..k]) && GrowsBy(ns1, rings1, ns2, rings2, q[..k + 1])
    ensures GrowsAlong(ns, rings, ns2, rings2, q[..k + 1])
  {
    forall path: seq<string>
      ensures Begins(path, q[..k + 1]) <==> Begins(path, q[..k]) || SameNames(path, q[..k + 1])
    {
      if |path| <= k {
        assert q[..k + 1][..|path|] == q[..k][..|path|];
      } else if |path| == k + 1 {
        assert q[..k + 1][..|path|] == q[..k + 1];
      }
    }
  }

  lemma GrowsFurther(ns: Nodes, rings: Rings, ns1: Nodes, rings1: Rings, ns2: Nodes, rings2: Rings,
                     q: seq<string>, m: nat, k: nat)
    requires m <= k <= |q|
    requires GrowsAlong(ns, rings, ns1, rings1, q[..m]) && GrowsAlong(ns1, rings1, ns2, rings2, q[..k])
    ensures GrowsAlong(ns, rings, ns2, rings2, q[..k])
  {
    forall path | Begins(path, q[..m])
      ensures Begins(path, q[..k])
    {
      assert q[..m][..|path|] == q[..k][..|path|];
    }
  }

  // ------------------------------------------------- a removal as a whole

  /**
   * What a removal of p, whose path is `parts`, does. Paths that do not go through it lead where
   * they did. The others lead nowhere, or, if p had a sibling of its name, where they lead from
   * that one.
   */
  ghost predicate RemovedFrom(ns: Nodes, rings: Rings, ns': Nodes, rings': Rings, parts: seq<string>, p: Id) {
    && p !in ns'
    && (forall path :: !Passes(ns, rings, ROOT, path, p) ==>
          Resolve(ns', rings', ROOT, path) == Resolve(ns, rings, ROOT, path))
    && (!HasTwin(ns, rings, p) ==> forall path :: Passes(ns, rings, ROOT, path, p) ==>
          Resolve(ns', rings', ROOT, path) == None)
    && (HasTwin(ns, rings, p) ==> exists x :: IsTwin(ns, rings, p, x) && LeadsFrom(ns, rings, ns', rings', parts, x))
  }

  ghost predicate LeadsFrom(ns: Nodes, rings: Rings, ns': Nodes, rings': Rings, parts: seq<string>, x: Id) {
    forall rest :: Resolve(ns', rings', ROOT, parts + rest) == Resolve(ns, rings, x, rest)
  }

  lemma DelEffect(ns: Nodes, rings: Rings, next: Id, d: Id, i: nat, done: seq<string>, name: string)
    requires TreeOk(ns, rings, next) && d in rings && i < |rings[d]| && Deletable(ns, d, rings[d][i])
    requires Resolve(ns, rings, ROOT, done) == Some(d) && Child(ns, rings[d], name) == Some(rings[d][i])
    ensures RemovedFrom(ns, rings, NodesLess(ns, d, rings[d][i]), RingsLess(rings, d, i), done + [name], rings[d][i])
  {
    var p, ns', rings', parts := rings[d][i], NodesLess(ns, d, rings[d][i]), RingsLess(rings, d, i), done + [name];
    var twin := Child(ns, Without(rings[d], i), name);
    assert Ring(ns, d, rings[d]);
    Parented(ns, d, rings[d], p);
    TwinIs(ns, rings, next, d, i, name);
    forall rest: seq<string>
      ensures Resolve(ns', rings', ROOT, parts + rest) ==
              if twin.None? then None else Resolve(ns, rings, twin.value, rest)
    {
      DelThrough(ns, rings, next, d, i, done, name, rest);
    }
    if twin.Some? {
      assert LeadsFrom(ns, rings, ns', rings', parts, twin.value);
    }
    forall path: seq<string>
      ensures !Passes(ns, rings, ROOT, path, p) ==> Resolve(ns', rings', ROOT, path) == Resolve(ns, rings, ROOT, path)
      ensures Passes(ns, rings, ROOT, path, p) && twin.None? ==> Resolve(ns', rings', ROOT, path) == None
    {
      if !Passes(ns, rings, ROOT, path, p) {
        DelAvoids(ns, rings, next, d, i, ROOT, path);
      } else {
        ResolveSnoc(ns, rings, ROOT, done, name, d);
        var rest := PassesNames(ns, rings, next, path, parts, p);
        ResolveSame(ns', rings', ROOT, path, parts + rest);
      }
    }
  }

  /** A path through p names what its path names, and goes on. */
  lemma PassesNames(ns: Nodes, rings: Rings, next: Id, path: seq<string>, parts: seq<string>, p: Id)
      returns (rest: seq<string>)
    requires TreeOk(ns, rings, next) && Passes(ns, rings, ROOT, path, p) && Resolve(ns, rings, ROOT, parts) == Some(p)
    ensures SameNames(path, parts + rest)
  {
    var k := PassesSplits(ns, rings, ROOT, path, p);
    PathUnique(ns, rings, next, path[..k], parts, p);
    rest := path[k..];
    forall i | 0 <= i < |path|
      ensures Short(path[i]) == Short((parts + rest)[i])
    {
      if i < k {
        assert Short(path[..k][i]) == Short(parts[i]);
      }
    }
  }

  /** One more component of a path. */
  lemma StepDown(ns: Nodes, rings: Rings, path: seq<string>, k: nat, d: Id)
    requires k < |path| && d in rings && Resolve(ns, rings, ROOT, path[..k]) == Some(d)
    ensures Resolve(ns, rings, ROOT, path[..k + 1]) == Child(ns, rings[d], path[k])
    ensures Child(ns, rings[d], path[k]).None? ==> Resolve(ns, rings, ROOT, path) == None
  {
    ResolveSnoc(ns, rings, ROOT, path[..k], path[k], d);
    assert path[..k + 1] == path[..k] + [path[k]];
    if Resolve(ns, rings, ROOT, path).Some? {
      ResolvePrefix(ns, rings, ROOT, path, k + 1);
    }
  }

  // ------------------------------------------------- k42devfs_register

  /** The path a registered name has: its directories without the empty ones, and its last component. */
  function PathOf(name: string): seq<string> {
    NonEmpty(DirsOf(name)) + [NodeOf(name)]
  }

  /** The components of a name but the last. */
  function DirsOf(name: string): seq<string> {
    Split(name)[..|Split(name)| - 1]
  }

  function NodeOf(name: string): string {
    Split(name)[|Split(name)| - 1]
  }

  /** A directory after an empty component that does not exist: mk_dir makes it somewhere else. */
  ghost predicate Lost(ns: Nodes, rings: Rings, dirs: seq<string>, k: nat)
    requires k <= |dirs|
  {
    exists j :: 0 <= j < k && LostAt(ns, rings, dirs, j)
  }

  ghost predicate LostDir(ns: Nodes, rings: Rings, name: string) {
    Lost(ns, rings, DirsOf(name), |DirsOf(name)|)
  }

  ghost predicate LostAt(ns: Nodes, rings: Rings, dirs: seq<string>, j: nat)
    requires j < |dirs|
  {
    |dirs[j]| > 0 && !AllFull(dirs[..j]) && Resolve(ns, rings, ROOT, NonEmpty(dirs[..j + 1])) == None
  }

  /** What the directories made so far add: the first m of them. */
  ghost predicate Made(ns: Nodes, rings: Rings, ns': Nodes, rings': Rings, dirs: seq<string>, m: nat) {
    m <= |dirs| && AllFull(dirs[..m]) && GrowsAlong(ns, rings, ns', rings', dirs[..m])
  }

  /** A path longer than what was made led somewhere before. */
  lemma LongerIsOld(ns: Nodes, rings: Rings, ns': Nodes, rings': Rings, dirs: seq<string>, m: nat, path: seq<string>)
    requires Made(ns, rings, ns', rings', dirs, m) && |path| > m
    ensures Resolve(ns', rings', ROOT, path).Some? <==> Resolve(ns, rings, ROOT, path).Some?
  {
    assert !Begins(path, dirs[..m]);
  }

  /** A directory found after an empty component was there before. */
  lemma FoundIsOld(ns: Nodes, rings: Rings, ns': Nodes, rings': Rings, dirs: seq<string>, m: nat, k: nat)
    requires Made(ns, rings, ns', rings', dirs, m) && m <= k < |dirs| && |dirs[k]| > 0
    requires Resolve(ns', rings', ROOT, NonEmpty(dirs[..k + 1])).Some?
    ensures !LostAt(ns, rings, dirs, k)
  {
    assert dirs[..k][..m] == dirs[..m];
    NonEmptyBegins(dirs[..k], m);
    NonEmptySnoc(dirs, k);
    LongerIsOld(ns, rings, ns', rings', dirs, m, NonEmpty(dirs[..k + 1]));
  }

  datatype RegisterResult =
    | Registered(id: Id, warned: bool)  // warned: the assertion that the name is new fails
    | NoDevice                          // CreateDevice failed
    | MissingDir                        // the code follows a null directory

  /** vsnprintf into a buffer of 64 characters. */
  function Cut(s: string): string {
    if |s| < 64 then s else s[..63]
  }

  lemma KnownEntry(ns: Nodes, rings: Rings, next: Id, path: seq<string>, x: Id)
    requires TreeOk(ns, rings, next) && Resolve(ns, rings, ROOT, path) == Some(x)
    ensures x in ns
  {
    if path != [] {
      Descends(ns, rings, next, ROOT, path, x);
    }
  }

  /** Component k of the name begins at x. */
  ghost predicate AtPart(name: string, x: nat, parts: seq<string>, k: nat) {
    x <= |name| && k < |parts| && SplitFrom(name, x) == parts[k..]
  }

  lemma FirstPart(name: string, parts: seq<string>)
    requires parts == Split(name)
    ensures AtPart(name, 0, parts, 0)
  {
    assert parts[0..] == parts;
  }

  /** The part of the name up to the next slash. */
  lemma NextPart(name: string, x: nat, parts: seq<string>, k: nat)
    requires parts == Split(name) && AtPart(name, x, parts, k) && NextSlash(name, x) < |name|
    ensures var slash, dirs := NextSlash(name, x), DirsOf(name);
            && k < |dirs| && dirs[k] == name[x..slash] && AtPart(name, slash + 1, parts, k + 1)
            && (|name| < 64 ==> Split(Cut(name[..slash])) == dirs[..k + 1])
  {
    var slash := NextSlash(name, x);
    SplitAt(name, 0, slash, name[..slash]);
    Aligned(parts, k, name[x..slash], Split(name[..slash]), SplitFrom(name, slash + 1));
  }

  lemma Aligned(parts: seq<string>, k: nat, part: string, before: seq<string>, after: seq<string>)
    requires k <= |parts| && parts[k..] == [part] + after && parts == before + after && |after| > 0
    ensures k < |parts| - 1 && parts[k] == part && after == parts[k + 1..]
    ensures before == parts[..|parts| - 1][..k + 1]
  {
    assert parts[k..][0] == parts[k];
    assert parts[k..][1..] == parts[k + 1..];
    assert |before| == k + 1;
  }

  /** The part of the name after the last slash. */
  lemma LastPart(name: string, x: nat, parts: seq<string>, k: nat)
    requires AtPart(name, x, parts, k) && NextSlash(name, x) == |name|
    ensures k == |parts| - 1 && parts[k] == name[x..]
  {
    assert parts[k..][0] == parts[k];
  }

  /** One directory of the name: found, or made where the name so far leads. */
  ghost predicate Descent(ns: Nodes, rings: Rings, ns': Nodes, rings': Rings, path: seq<string>, q: seq<string>) {
    if Resolve(ns, rings, ROOT, path).Some? then ns' == ns && rings' == rings
    else GrowsAlong(ns, rings, ns', rings', q)
  }

  lemma DescentFails(ns: Nodes, rings: Rings, ns1: Nodes, rings1: Rings, ns2: Nodes, rings2: Rings,
                     dirs: seq<string>, m: nat, k: nat)
    requires k < |dirs| && |dirs[k]| > 0 && Made(ns, rings, ns1, rings1, dirs, m)
    requires Descent(ns1, rings1, ns2, rings2, NonEmpty(dirs[..k + 1]), dirs[..k + 1])
    requires Resolve(ns2, rings2, ROOT, NonEmpty(dirs[..k + 1])) == None
    ensures LostAt(ns, rings, dirs, k)
  {
    SkipsExactly(dirs[..k + 1]);
    assert dirs[..k + 1] == dirs[..k] + [dirs[k]];
  }

  lemma Descended(ns: Nodes, rings: Rings, ns1: Nodes, rings1: Rings, ns2: Nodes, rings2: Rings,
                  dirs: seq<string>, m: nat, k: nat) returns (n: nat)
    requires m <= k < |dirs| && |dirs[k]| > 0 && Made(ns, rings, ns1, rings1, dirs, m)
    requires Descent(ns1, rings1, ns2, rings2, NonEmpty(dirs[..k + 1]), dirs[..k + 1])
    requires Resolve(ns2, rings2, ROOT, NonEmpty(dirs[..k + 1])).Some?
    ensures n <= k + 1 && Made(ns, rings, ns2, rings2, dirs, n) && !LostAt(ns, rings, dirs, k)
  {
    if Resolve(ns1, rings1, ROOT, NonEmpty(dirs[..k + 1])).Some? {
      FoundIsOld(ns, rings, ns1, rings1, dirs, m, k);
      n := m;
    } else {
      SkipsExactly(dirs[..k + 1]);
      assert dirs[..k + 1] == dirs[..k] + [dirs[k]];
      GrowsFurther(ns, rings, ns1, rings1, ns2, rings2, dirs, m, k + 1);
      n := k + 1;
    }
  }

  /** The path removed leads nowhere exactly if there was no twin. */
  lemma RemovedPath(ns: Nodes, rings: Rings, ns': Nodes, rings': Rings, parts: seq<string>, p: Id)
    requires parts != [] && Resolve(ns, rings, ROOT, parts) == Some(p)
    requires RemovedFrom(ns, rings, ns', rings', parts, p)
    ensures Resolve(ns', rings', ROOT, parts) == None <==> !HasTwin(ns, rings, p)
  {
    EndsThrough(ns, rings, ROOT, parts, p);
    if HasTwin(ns, rings, p) {
      var x :| IsTwin(ns, rings, p, x) && LeadsFrom(ns, rings, ns', rings', parts, x);
      assert parts + [] == parts;
    }
  }

  /** A path that leads to an entry goes through it. */
  lemma {:induction false} EndsThrough(ns: Nodes, rings: Rings, d: Id, path: seq<string>, p: Id)
    requires path != [] && Resolve(ns, rings, d, path) == Some(p)
    ensures Passes(ns, rings, d, path, p)
    decreases |path|
  {
    if |path| > 1 {
      EndsThrough(ns, rings, Child(ns, rings[d], path[0]).value, path[1..], p);
    } else {
      assert path[1..] == [];
    }
  }

  /** The new entry and the one found before are each other's twins, and without one it has none. */
  lemma NewTwins(ns: Nodes, rings: Rings, next: Id, d: Id, name: string)
    requires TreeOk(ns, rings, next) && d in ns && Addable(ns, d) && '/' !in name
    ensures var ns', rings' := NodesWith(ns, d, next, name), RingsWith(rings, d, next);
            var c := Child(ns, rings[d], name);
            && (c.None? ==> !HasTwin(ns', rings', next))
            && (c.Some? ==> IsTwin(ns', rings', next, c.value) && IsTwin(ns', rings', c.value, next))
  {
    var ns', rings' := NodesWith(ns, d, next, name), RingsWith(rings, d, next);
    var c := Child(ns, rings[d], name);
    assert Ring(ns, d, rings[d]);
    NamesKept(ns, d, next, name, d);
    forall x | x in rings'[d]
      ensures x == next || (x in rings[d] && x in ns' && ns'[x].name == ns[x].name)
    {
      InsertedMembers(rings[d], next, x);
      if x != next {
        NamesKept(ns, d, next, name, x);
      }
    }
    if c.Some? {
      InsertedMembers(rings[d], next, c.value);
      InsertedMembers(rings[d], next, next);
      NewRing(ns, rings, next, d, name);
      Parented(ns', d, rings'[d], c.value);
    }
  }

  /** The directories made have not changed where the whole path leads. */
  lemma BeforeAndBetween(ns: Nodes, rings: Rings, ns': Nodes, rings': Rings, name: string, m: nat)
    requires Extends(ns, rings, ns', rings')
    requires Made(ns, rings, ns', rings', DirsOf(name), m)
    ensures Resolve(ns', rings', ROOT, PathOf(name)) == Resolve(ns, rings, ROOT, PathOf(name))
  {
    var dirs := DirsOf(name);
    NonEmptyBegins(dirs, m);
    LongerIsOld(ns, rings, ns', rings', dirs, m, PathOf(name));
  }

  /** findChild of the whole name in the directory finds something exactly if the name has no slash and is taken. */
  lemma WarnedExactly(ns: Nodes, rings: Rings, next: Id, name: string, d: Id)
    requires TreeOk(ns, rings, next) && |name| < 64 && d in ns
    requires Resolve(ns, rings, ROOT, NonEmpty(DirsOf(name))) == Some(d)
    ensures Child(ns, rings[d], name).Some? <==> '/' !in name && Resolve(ns, rings, ROOT, PathOf(name)).Some?
  {
    var c := Child(ns, rings[d], name);
    assert Short(name) == name;
    if '/' !in name {
      assert NextSlash(name, 0) == |name| && name[0..] == name;
      assert Split(name) == [name] && PathOf(name) == [name];
      assert [name][1..] == [];
      assert d == ROOT;
    }
  }

  lemma ExtendsOn(ns: Nodes, rings: Rings, ns1: Nodes, rings1: Rings, ns2: Nodes, rings2: Rings, path: seq<string>)
    requires Extends(ns, rings, ns1, rings1)
    requires var c := Resolve(ns, rings, ROOT, path);
             && Resolve(ns1, rings1, ROOT, path) == c
             && (Extends(ns1, rings1, ns2, rings2) <==> c.None? || Resolve(ns2, rings2, ROOT, path) == c)
    ensures var c := Resolve(ns, rings, ROOT, path);
            Extends(ns, rings, ns2, rings2) <==> c.None? || Resolve(ns2, rings2, ROOT, path) == c
  {
    var c := Resolve(ns, rings, ROOT, path);
    if c.None? || Resolve(ns2, rings2, ROOT, path) == c {
      ExtendsTwice(ns, rings, ns1, rings1, ns2, rings2);
    }
  }

  /** A new entry, of a new name or not. */
  lemma Additions(ns: Nodes, rings: Rings, next: Id, d: Id, name: string, done: seq<string>)
    requires TreeOk(ns, rings, next) && Addable(ns, d) && '/' !in name && Resolve(ns, rings, ROOT, done) == Some(d)
    ensures var ns', rings' := NodesWith(ns, d, next, name), RingsWith(rings, d, next);
            var c, now := Child(ns, rings[d], name), Resolve(ns', rings', ROOT, done + [name]);
            && next in ns' && (now == Some(next) || (now == c && c.Some?))
            && (Extends(ns, rings, ns', rings') <==> c.None? || now == c)
            && (c.Some? ==> (now == c <==> ns[d].child == c))
  {
    var c := Child(ns, rings[d], name);
    assert Ring(ns, d, rings[d]);
    NamesKept(ns, d, next, name, d);
    if c.None? {
      NewEntry(ns, rings, next, d, name, done);
    } else {
      TwinEntry(ns, rings, next, d, name, done);
    }
  }

  /** A directory of a name, and the name up to its end. */
  datatype Step = Step(part: string, soFar: string)

  ghost predicate StepOk(name: string, k: nat, step: Step)
    requires k < |DirsOf(name)|
  {
    step.part == DirsOf(name)[k] && (|name| < 64 ==> Split(Cut(step.soFar)) == DirsOf(name)[..k + 1])
  }

  /** The scan of k42devfs_register. */
  method StepsOf(name: string) returns (steps: seq<Step>, node: string)
    ensures |steps| == |DirsOf(name)| && node == NodeOf(name)
    ensures forall k :: 0 <= k < |steps| ==> StepOk(name, k, steps[k])
  {
    ghost var parts := Split(name);
    var x := 0;
    steps := [];
    FirstPart(name, parts);
    var slash := NextSlash(name, x);
    while slash < |name|
      invariant AtPart(name, x, parts, |steps|) && slash == NextSlash(name, x) && |steps| <= |DirsOf(name)|
      invariant forall k :: 0 <= k < |steps| ==> StepOk(name, k, steps[k])
      decreases |name| - x
    {
      NextPart(name, x, parts, |steps|);
      steps := steps + [Step(name[x..slash], name[..slash])];
      x := slash + 1;
      slash := NextSlash(name, x);
    }
    LastPart(name, x, parts, |steps|);
    node := name[x..];
  }

  // ------------------------------------------------- the tree

  class Tree {
    var nodes: Nodes
    var next: Id
    ghost var rings: Rings

    ghost predicate Valid()
      reads this
    {
      TreeOk(nodes, rings, next)
    }

    ghost function Lookup(path: seq<string>): Option<Id>
      reads this
    {
      Resolve(nodes, rings, ROOT, path)
    }

    /** k42devfsInit */
    constructor ()
      ensures Valid() && forall path :: path != [] ==> Lookup(path) == None
    {
      nodes := map[ROOT := Node("root", None, None, None, None)];
      next := 1;
      rings := map[ROOT := []];
    }

    method Find(d: Id, name: string) returns (found: Option<Id>)
      requires Valid() && d in nodes
      ensures found == Child(nodes, rings[d], name) && (found.Some? ==> found.value in nodes && found.value in rings[d])
    {
      assert Ring(nodes, d, rings[d]);
      found := FindChild(nodes, d, name, rings[d]);
    }

    // ----------------------------------------------- k42devfs_mk_dir

    /** Find the child of that name, or make it. */
    method EnsureChild(d: Id, name: string, ghost done: seq<string>) returns (id: Id)
      requires Valid() && d in nodes && Lookup(done) == Some(d) && '/' !in name
      modifies this
      ensures Valid() && id in nodes && Lookup(done + [name]) == Some(id)
      ensures Extends(old(nodes), old(rings), nodes, rings)
      ensures GrowsBy(old(nodes), old(rings), nodes, rings, done + [name])
      ensures old(Lookup(done + [name])).Some? ==> nodes == old(nodes) && rings == old(rings) && next == old(next)
    {
      ResolveSnoc(nodes, rings, ROOT, done, name, d);
      var found := Find(d, name);
      if found.Some? {
        forall path | SameNames(path, done + [name])
          ensures Lookup(path).Some?
        {
          ResolveSame(nodes, rings, ROOT, path, done + [name]);
        }
        return found.value;
      }
      NewEntry(nodes, rings, next, d, name, done);
      id := next;
      nodes, rings, next := NodesWith(nodes, d, next, name), RingsWith(rings, d, next), next + 1;
    }

    /**
     * k42devfs_mk_dir: afterwards the path leads to the entry returned, every path that led
     * somewhere leads to the same entry, and beside those exactly the beginnings of the path
     * lead somewhere; if the path led somewhere already nothing changes.
     */
    method MkDir(name: string) returns (id: Id)
      requires Valid()
      modifies this
      ensures Valid() && id in nodes && Lookup(Split(name)) == Some(id)
      ensures Extends(old(nodes), old(rings), nodes, rings)
      ensures GrowsAlong(old(nodes), old(rings), nodes, rings, Split(name))
      ensures old(Lookup(Split(name))).Some? ==> nodes == old(nodes) && rings == old(rings) && next == old(next)
    {
      var parts := Components(name);
      id := ROOT;
      assert parts[..0] == [];
      for k := 0 to |parts|
        invariant Valid() && id in nodes && Lookup(parts[..k]) == Some(id)
        invariant Extends(old(nodes), old(rings), nodes, rings)
        invariant GrowsAlong(old(nodes), old(rings), nodes, rings, parts[..k])
        invariant old(Lookup(parts)).Some? ==> nodes == old(nodes) && rings == old(rings) && next == old(next)
      {
        ghost var ns, rs := nodes, rings;
        assert parts[..k + 1] == parts[..k] + [parts[k]];
        SplitNoSlash(name, 0, k);
        if old(Lookup(parts)).Some? {
          ResolvePrefix(ns, rs, ROOT, parts, k + 1);
        }
        id := EnsureChild(id, parts[k], parts[..k]);
        ExtendsTwice(old(nodes), old(rings), ns, rs, nodes, rings);
        GrowsOn(old(nodes), old(rings), ns, rs, nodes, rings, parts, k);
      }
      assert parts[..|parts|] == parts;
    }

    // ----------------------------------------------- k42devfs_remove

    /** The walk of k42devfs_remove: the entry a path leads to, and its directory. */
    method Walk(parts: seq<string>) returns (found: bool, pwd: Id, node: Id)
      requires Valid() && parts != []
      ensures found <==> Lookup(parts).Some?
      ensures found ==> Lookup(parts) == Some(node) && pwd in rings && Lookup(parts[..|parts| - 1]) == Some(pwd)
      ensures found ==> Child(nodes, rings[pwd], parts[|parts| - 1]) == Some(node)
    {
      pwd, node := ROOT, ROOT;
      assert parts[..0] == [];
      for k := 0 to |parts|
        invariant node in nodes && Lookup(parts[..k]) == Some(node)
        invariant k > 0 ==> pwd in rings && Lookup(parts[..k - 1]) == Some(pwd)
        invariant k > 0 ==> Child(nodes, rings[pwd], parts[k - 1]) == Some(node)
      {
        pwd := node;
        var child := Find(pwd, parts[k]);
        StepDown(nodes, rings, parts, k, pwd);
        if child.None? {
          return false, pwd, node;
        }
        node := child.value;
      }
      assert parts[..|parts|] == parts;
      found := true;
    }

    /** k42devfs_remove; false if the path leads nowhere. */
    method Remove(name: string) returns (removed: bool)
      requires Valid()
      modifies this
      ensures Valid()
      ensures removed <==> old(Lookup(Split(name))).Some?
      ensures !removed ==> nodes == old(nodes) && rings == old(rings)
      ensures removed ==>
                RemovedFrom(old(nodes), old(rings), nodes, rings, Split(name), old(Lookup(Split(name))).value)
      ensures removed ==>
                (Lookup(Split(name)) == None <==> !HasTwin(old(nodes), old(rings), old(Lookup(Split(name))).value))
    {
      var parts := Components(name);
      var found, pwd, node := Walk(parts);
      removed := found;
      if found {
        ghost var n := |parts| - 1;
        assert parts == parts[..n] + [parts[n]];
        Unlink(pwd, node, parts[..n], parts[n]);
        RemovedPath(old(nodes), old(rings), nodes, rings, parts, node);
      }
    }

    /** delChild and delete. */
    method Unlink(d: Id, p: Id, ghost done: seq<string>, ghost name: string)
      requires Valid() && d in rings && Lookup(done) == Some(d) && Child(nodes, rings[d], name) == Some(p)
      modifies this
      ensures Valid() && next == old(next)
      ensures RemovedFrom(old(nodes), old(rings), nodes, rings, done + [name], p)
    {
      ghost var i :| 0 <= i < |rings[d]| && rings[d][i] == p;
      DelKeeps(nodes, rings, next, d, i);
      DelEffect(nodes, rings, next, d, i, done, name);
      nodes, rings := NodesLess(nodes, d, p), RingsLess(rings, d, i);
    }

    // ----------------------------------------------- k42devfs_register

    /** One directory of the name: the child found, or made by devfs_mk_dir of the name so far. */
    method Descend(location: Id, part: string, soFar: string, ghost done: seq<string>) returns (next: Option<Id>)
      requires Valid() && location in nodes && Lookup(done) == Some(location)
      modifies this
      ensures Valid() && Extends(old(nodes), old(rings), nodes, rings)
      ensures next == Lookup(done + [part]) && (next.Some? ==> next.value in nodes)
      ensures Descent(old(nodes), old(rings), nodes, rings, done + [part], Split(Cut(soFar)))
    {
      ResolveSnoc(nodes, rings, ROOT, done, part, location);
      next := Find(location, part);
      if next.None? {
        var _ := MkDir(Cut(soFar));
        ResolveSnoc(nodes, rings, ROOT, done, part, location);
        assert location in nodes by {
          assert Lookup(done) == Some(location);
          KnownEntry(nodes, rings, this.next, done, location);
        }
        next := Find(location, part);
      }
    }

    /** The first k directories of a name have been passed, and `here` is the last of them. */
    ghost predicate OnWay(ns: Nodes, rs: Rings, dirs: seq<string>, k: nat, m: nat, here: Id, exact: bool)
      reads this
    {
      && Valid() && Extends(ns, rs, nodes, rings) && k <= |dirs|
      && here in nodes && Lookup(NonEmpty(dirs[..k])) == Some(here)
      && (exact ==> m <= k && Made(ns, rs, nodes, rings, dirs, m) && !Lost(ns, rs, dirs, k))
    }

    /** Pass the next directory. */
    method Pass(here: Id, part: string, soFar: string,
                ghost ns: Nodes, ghost rs: Rings, ghost dirs: seq<string>,
                ghost k: nat, ghost m: nat, ghost exact: bool)
        returns (down: Option<Id>, ghost n: nat)
      requires OnWay(ns, rs, dirs, k, m, here, exact) && k < |dirs| && part == dirs[k]
      requires exact ==> Split(Cut(soFar)) == dirs[..k + 1]
      modifies this
      ensures Valid() && Extends(ns, rs, nodes, rings)
      ensures down.Some? ==> OnWay(ns, rs, dirs, k + 1, n, down.value, exact)
      ensures down.None? && exact ==> Lost(ns, rs, dirs, |dirs|)
    {
      ghost var ns1, rs1 := nodes, rings;
      n := m;
      NonEmptySnoc(dirs, k);
      if |part| == 0 {
        assert NonEmpty(dirs[..k]) + [] == NonEmpty(dirs[..k]);
        return Some(here), m;
      }
      down := Descend(here, part, soFar, NonEmpty(dirs[..k]));
      ExtendsTwice(ns, rs, ns1, rs1, nodes, rings);
      if exact {
        if down.None? {
          DescentFails(ns, rs, ns1, rs1, nodes, rings, dirs, m, k);
          assert Lost(ns, rs, dirs, |dirs|);
        } else {
          n := Descended(ns, rs, ns1, rs1, nodes, rings, dirs, m, k);
        }
      }
    }

    lemma WayBegins(dirs: seq<string>, exact: bool)
      requires Valid()
      ensures OnWay(nodes, rings, dirs, 0, 0, ROOT, exact)
    {
      assert dirs[..0] == [];
    }

    /** The directory a name is to be registered in; None if the code follows a null one. */
    method Locate(name: string) returns (location: Option<Id>, node: string, ghost m: nat)
      requires Valid()
      modifies this
      ensures Valid() && Extends(old(nodes), old(rings), nodes, rings)
      ensures location.Some? ==> Located(old(nodes), old(rings), name, location.value, node, m)
      ensures location.None? && |name| < 64 ==> LostDir(old(nodes), old(rings), name)
    {
      var steps;
      steps, node := StepsOf(name);
      ghost var dirs := DirsOf(name);
      var here := ROOT;
      m := 0;
      WayBegins(dirs, |name| < 64);
      for k := 0 to |steps|
        invariant OnWay(old(nodes), old(rings), dirs, k, m, here, |name| < 64)
      {
        assert StepOk(name, k, steps[k]);
        var down;
        down, m := Pass(here, steps[k].part, steps[k].soFar, old(nodes), old(rings), dirs, k, m, |name| < 64);
        if down.None? {
          return None, node, m;
        }
        here := down.value;
      }
      location := Some(here);
    }

    /** `d` is the directory the name is in, reached past all its components but the last. */
    ghost predicate Located(ns: Nodes, rs: Rings, name: string, d: Id, node: string, m: nat)
      reads this
    {
      node == NodeOf(name) && OnWay(ns, rs, DirsOf(name), |DirsOf(name)|, m, d, |name| < 64)
    }

    /** addChild of the new entry. */
    method AddDevice(d: Id, name: string, ghost done: seq<string>) returns (id: Id)
      requires Valid() && d in nodes && Lookup(done) == Some(d) && '/' !in name
      modifies this
      ensures Valid() && id in nodes
      ensures var path, c := done + [name], old(Lookup(done + [name]));
              && (Lookup(path) == Some(id) || (Lookup(path) == c && c.Some?))
              && (Extends(old(nodes), old(rings), nodes, rings) <==> c.None? || Lookup(path) == c)
              && Twinned(id, c)
      ensures old(Lookup(done + [name])).Some? ==>
                (Lookup(done + [name]) == old(Lookup(done + [name])) <==> old(nodes[d].child == Lookup(done + [name])))
    {
      ResolveSnoc(nodes, rings, ROOT, done, name, d);
      NewKeeps(nodes, rings, next, d, name);
      NewTwins(nodes, rings, next, d, name);
      Additions(nodes, rings, next, d, name, done);
      id := next;
      nodes, rings, next := NodesWith(nodes, d, next, name), RingsWith(rings, d, next), next + 1;
    }

    /** The entry has a sibling of its name exactly if c is one. */
    ghost predicate Twinned(id: Id, c: Option<Id>)
      reads this
    {
      if c.None? then !HasTwin(nodes, rings, id)
      else IsTwin(nodes, rings, id, c.value) && IsTwin(nodes, rings, c.value, id)
    }

    /**
     * k42devfs_register in the root, as k42devfs_mk_cdev and k42devfs_mk_bdev call it; `created`
     * is the outcome of CreateDevice. For names of fewer than 64 characters: if the path led
     * somewhere already, the entry found and the new one are siblings of one name. The
     * assertion that the name is new notices this exactly if the name has no slash. The path
     * leads to one of the two, and what led to the other before is lost exactly if it is the new.
     */
    method Register(name: string, created: bool) returns (r: RegisterResult)
      requires Valid()
      modifies this
      ensures Valid()
      ensures |name| < 64 ==>
                && (r.MissingDir? <==> LostDir(old(nodes), old(rings), name))
                && (r.NoDevice? <==> !created && !r.MissingDir?)
      ensures |name| < 64 && r.Registered? ==>
                var path, c := PathOf(name), old(Lookup(PathOf(name)));
                && r.id in nodes && Twinned(r.id, c)
                && (r.warned <==> c.Some? && '/' !in name)
                && (Lookup(path) == Some(r.id) || (Lookup(path) == c && c.Some?))
                && (Extends(old(nodes), old(rings), nodes, rings) <==> c.None? || Lookup(path) == c)
    {
      var location, node, m := Locate(name);
      if location.None? {
        return MissingDir;
      }
      ghost var done := NonEmpty(DirsOf(name));
      ghost var ns, rs, n := nodes, rings, next;
      var same := Find(location.value, name);
      if !created {
        return NoDevice;
      }
      SplitNoSlash(name, 0, |Split(name)| - 1);
      assert DirsOf(name)[..|DirsOf(name)|] == DirsOf(name);
      var id := AddDevice(location.value, node, done);
      r := Registered(id, same.Some?);
      if |name| < 64 {
        BeforeAndBetween(old(nodes), old(rings), ns, rs, name, m);
        WarnedExactly(ns, rs, n, name, location.value);
        ExtendsOn(old(nodes), old(rings), ns, rs, nodes, rings, PathOf(name));
      }
    }
  }

  /** Registered twice without a warning, an entry is still there after its removal. */
  method RemoveLeavesTwin() returns (warned: bool, removed: bool, left: bool)
    ensures !warned && removed && left
  {
    ExamplePath();
    var t := new Tree();
    var first := t.Register("a/b", true);
    assert first.Registered?;
    var second := t.Register("a/b", true);
    warned := second.Registered? && second.warned;
    removed := t.Remove("a/b");
    var pwd, node;
    left, pwd, node := t.Walk(["a", "b"]);
  }

  lemma ExampleParts()
    ensures Split("a/b") == ["a", "b"]
  {
    var s := "a/b";
    assert NextSlash(s, 2) == 3;
    assert SplitFrom(s, 2) == ["b"] by {
      assert s[2..] == "b";
    }
    assert NextSlash(s, 0) == 1;
    assert s[0..1] == "a";
  }

  lemma ExamplePath()
    ensures Split("a/b") == ["a", "b"] && PathOf("a/b") == ["a", "b"] && '/' in "a/b"
    ensures forall ns, rings :: !LostDir(ns, rings, "a/b")
  {
    var s := "a/b";
    ExampleParts();
    assert s[1] == '/';
    OneDirPath(s, "a", "b");
    forall ns, rings
      ensures !LostDir(ns, rings, s)
    {
      OneDirIsNotLost(ns, rings, s);
    }
  }

  lemma OneDirPath(name: string, dir: string, node: string)
    requires Split(name) == [dir, node] && |dir| > 0
    ensures DirsOf(name) == [dir] && PathOf(name) == [dir, node]
  {
    NonEmptyAll([dir]);
  }

  /** A name with one directory has no empty component before a directory. */
  lemma OneDirIsNotLost(ns: Nodes, rings: Rings, name: string)
    requires |DirsOf(name)| == 1
    ensures !LostDir(ns, rings, name)
  {
    assert DirsOf(name)[..0] == [];
  }
}
