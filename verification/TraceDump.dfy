/**
 * The walk over the trace ring in bin/traceDump.C: a ring of buffers of events, read back
 * from the current index. Nothing is taken for granted of the words in the ring, so a loop may
 * never end; a method then gives None.
 */
module TraceDump {
  import opened Prelude

  const BUFFER_SIZE := 65536

  /** `total` is trcCtrl->index, which only grows; a power-of-two mask is a remainder. */
  datatype Ring = Ring(buffers: nat, words: seq<nat>, counts: seq<nat>, total: nat)

  /** TRACE_LENGTH_GET */
  function Length(word: nat): nat {
    word / 0x100_0000 % 256
  }

  /** traceFormFirstWord: the first word of an event. */
  function FirstWord(timestamp: nat, length: nat, layer: nat, major: nat, data: nat): nat {
    timestamp * 0x1_0000_0000 + length * 0x100_0000 + layer * 0x10_0000 + major * 0x4000 + data
  }

  /** The length is read back as it was written. */
  lemma LengthReadBack(timestamp: nat, length: nat, layer: nat, major: nat, data: nat)
    requires timestamp < 0x1_0000_0000 && length < 256 && layer < 16 && major < 64 && data < 0x4000
    ensures Length(FirstWord(timestamp, length, layer, major, data)) == length
  {
    var low := layer * 0x10_0000 + major * 0x4000 + data;
    var word := FirstWord(timestamp, length, layer, major, data);
    assert word == (timestamp * 256 + length) * 0x100_0000 + low && low < 0x100_0000;
    assert word / 0x100_0000 == timestamp * 256 + length;
  }

  predicate Shaped(r: Ring) {
    r.buffers > 0 && |r.words| == r.buffers * BUFFER_SIZE && |r.counts| == r.buffers
  }

  /** The current index. */
  function Index(r: Ring): (i: nat)
    requires Shaped(r)
    ensures i < |r.words|
  {
    r.total % |r.words|
  }

  // ------------------------------------------------- events in a stretch of words

  /** The value of the counting loop's index after n turns. */
  function At(r: Ring, i: nat, end: nat, n: nat): nat
    requires Shaped(r) && end <= |r.words|
    decreases n
  {
    if n == 0 || i >= end then i else At(r, i + Length(r.words[i]), end, n - 1)
  }

  /** No word that the counting loop visits has length zero. */
  predicate Advances(r: Ring, i: nat, end: nat)
    requires Shaped(r) && end <= |r.words|
    decreases end - i
  {
    i < end ==> Length(r.words[i]) > 0 && Advances(r, i + Length(r.words[i]), end)
  }

  /** The number of turns it takes. */
  function Turns(r: Ring, i: nat, end: nat): (n: nat)
    requires Shaped(r) && end <= |r.words| && Advances(r, i, end)
    ensures i <= end ==> n <= end - i
    decreases end - i
  {
    if i >= end then 0 else 1 + Turns(r, i + Length(r.words[i]), end)
  }

  /** The words from i to `end` are exactly a sequence of events. */
  predicate Tiled(r: Ring, i: nat, end: nat)
    requires Shaped(r) && i <= end <= |r.words|
    decreases end - i
  {
    i < end ==> 0 < Length(r.words[i]) <= end - i && Tiled(r, i + Length(r.words[i]), end)
  }

  /** The indices of those events. */
  function EventsIn(r: Ring, i: nat, end: nat): seq<nat>
    requires Shaped(r) && i <= end <= |r.words| && Tiled(r, i, end)
    decreases end - i
  {
    if i == end then [] else [i] + EventsIn(r, i + Length(r.words[i]), end)
  }

  /** The counting loop ends if and only if it advances. */
  lemma AdvancesExact(r: Ring, i: nat, end: nat)
    requires Shaped(r) && end <= |r.words|
    ensures Advances(r, i, end) <==> exists n :: At(r, i, end, n) >= end
  {
    if Advances(r, i, end) {
      TurnsEnough(r, i, end);
    } else {
      forall n: nat
        ensures At(r, i, end, n) < end
      {
        StaysBelow(r, i, end, n);
      }
    }
  }

  lemma {:induction false} TurnsEnough(r: Ring, i: nat, end: nat)
    requires Shaped(r) && end <= |r.words| && Advances(r, i, end)
    ensures At(r, i, end, Turns(r, i, end)) >= end
    decreases end - i
  {
    if i < end {
      TurnsEnough(r, i + Length(r.words[i]), end);
    }
  }

  lemma {:induction false} StaysBelow(r: Ring, i: nat, end: nat, n: nat)
    requires Shaped(r) && end <= |r.words| && !Advances(r, i, end)
    ensures At(r, i, end, n) < end
    decreases n
  {
    if n > 0 {
      StaysBelow(r, i + Length(r.words[i]), end, n - 1);
    }
  }

  lemma {:induction false} TiledAdvances(r: Ring, i: nat, end: nat)
    requires Shaped(r) && i <= end <= |r.words| && Tiled(r, i, end)
    ensures Advances(r, i, end) && Turns(r, i, end) == |EventsIn(r, i, end)|
    decreases end - i
  {
    if i < end {
      TiledAdvances(r, i + Length(r.words[i]), end);
    }
  }

  // ------------------------------------------------- buffers, counted back from the current one

  function CurrentBuffer(r: Ring): nat
    requires Shaped(r)
  {
    Index(r) / BUFFER_SIZE
  }

  /** The number of the buffer j before the current one. */
  function Number(r: Ring, j: nat): (b: nat)
    requires Shaped(r) && j < r.buffers
    ensures b < r.buffers
  {
    var c := CurrentBuffer(r);
    if j <= c then c - j else c + r.buffers - j
  }

  function Start(r: Ring, j: nat): (i: nat)
    requires Shaped(r) && j < r.buffers
    ensures i + BUFFER_SIZE <= |r.words|
  {
    Number(r, j) * BUFFER_SIZE
  }

  function End(r: Ring, j: nat): (e: nat)
    requires Shaped(r) && j < r.buffers
    ensures Start(r, j) <= e <= Start(r, j) + BUFFER_SIZE
  {
    if j == 0 then Index(r) else Start(r, j) + BUFFER_SIZE
  }

  /** The test of the search. */
  predicate Complete(r: Ring, j: nat)
    requires Shaped(r) && j < r.buffers
  {
    r.counts[Number(r, j)] == End(r, j) - Start(r, j)
  }

  predicate Moves(r: Ring, j: nat)
    requires Shaped(r) && j < r.buffers
  {
    Advances(r, Start(r, j), End(r, j))
  }

  function CountOf(r: Ring, j: nat): (n: nat)
    requires Shaped(r) && j < r.buffers && Moves(r, j)
    ensures n <= BUFFER_SIZE
  {
    Turns(r, Start(r, j), End(r, j))
  }

  predicate Tiles(r: Ring, j: nat)
    requires Shaped(r) && j < r.buffers
  {
    Tiled(r, Start(r, j), End(r, j))
  }

  function EventsOf(r: Ring, j: nat): seq<nat>
    requires Shaped(r) && j < r.buffers && Tiles(r, j)
  {
    EventsIn(r, Start(r, j), End(r, j))
  }

  lemma TilesMove(r: Ring, j: nat)
    requires Shaped(r) && j < r.buffers && Tiles(r, j)
    ensures Moves(r, j) && CountOf(r, j) == |EventsOf(r, j)|
  {
    TiledAdvances(r, Start(r, j), End(r, j));
  }

  /** The first j buffers back pass the test, can be counted, and hold whole events. */
  ghost predicate AllComplete(r: Ring, j: nat)
    requires Shaped(r)
  {
    j <= r.buffers && forall k: nat :: k < j ==> Complete(r, k)
  }

  ghost predicate AllMove(r: Ring, j: nat)
    requires Shaped(r)
  {
    j <= r.buffers && forall k: nat :: k < j ==> Moves(r, k)
  }

  ghost predicate AllTile(r: Ring, j: nat)
    requires Shaped(r)
  {
    j <= r.buffers && forall k: nat :: k < j ==> Tiles(r, k)
  }

  /** What the search counts in the first j buffers back. */
  ghost function Counted(r: Ring, j: nat): (n: nat)
    requires Shaped(r) && AllMove(r, j)
    ensures n <= j * BUFFER_SIZE
  {
    if j == 0 then 0 else CountOf(r, j - 1) + Counted(r, j - 1)
  }

  /** The events of the first j buffers back, in ring order. */
  ghost function Back(r: Ring, j: nat): seq<nat>
    requires Shaped(r) && AllTile(r, j)
  {
    if j == 0 then [] else EventsOf(r, j - 1) + Back(r, j - 1)
  }

  lemma {:induction false} CountedGrows(r: Ring, j: nat, m: nat)
    requires Shaped(r) && j <= m && AllMove(r, m)
    ensures AllMove(r, j) && Counted(r, j) <= Counted(r, m)
    decreases m
  {
    if j < m {
      CountedGrows(r, j, m - 1);
    }
  }

  lemma {:induction false} TilesCount(r: Ring, j: nat)
    requires Shaped(r) && AllTile(r, j)
    ensures AllMove(r, j) && Counted(r, j) == |Back(r, j)|
  {
    if j > 0 {
      TilesCount(r, j - 1);
      TilesMove(r, j - 1);
    }
  }

  // ------------------------------------------------- how far back the search goes

  /** The length of the longest run of complete buffers that ends at the current index. */
  ghost function Longest(r: Ring, j: nat): (m: nat)
    requires Shaped(r) && AllComplete(r, j)
    ensures j <= m && AllComplete(r, m) && (m < r.buffers ==> !Complete(r, m))
    decreases r.buffers - j
  {
    if j == r.buffers || !Complete(r, j) then j else Longest(r, j + 1)
  }

  lemma LongestIs(r: Ring, j: nat)
    requires Shaped(r) && AllComplete(r, j) && (j < r.buffers ==> !Complete(r, j))
    ensures j == Longest(r, 0)
  {
  }

  /** The search counts the events of the buffer j back. */
  ghost predicate Visits(r: Ring, numb: nat, j: nat)
    requires Shaped(r)
  {
    && j < r.buffers && AllComplete(r, j + 1)
    && AllMove(r, j) && (j == 0 || Counted(r, j) < numb)
  }

  /** The search ends with j buffers. */
  ghost predicate Takes(r: Ring, numb: nat, j: nat)
    requires Shaped(r)
  {
    && AllComplete(r, j) && AllMove(r, j)
    && (j > 1 ==> Counted(r, j - 1) < numb)
    && ((j > 0 && Counted(r, j) >= numb) || j == Longest(r, 0))
  }

  lemma StopsShort(r: Ring, numb: nat, j: nat)
    requires Shaped(r) && AllComplete(r, j) && AllMove(r, j) && (j > 0 ==> Counted(r, j) < numb)
    requires j < r.buffers ==> !Complete(r, j)
    ensures Takes(r, numb, j)
  {
    LongestIs(r, j);
  }

  /** When the search ends with j buffers it visited exactly these. */
  lemma TakesVisits(r: Ring, numb: nat, j: nat, k: nat)
    requires Shaped(r) && Takes(r, numb, j)
    ensures Visits(r, numb, k) <==> k < j
  {
    if k < j {
      CountedGrows(r, k, j);
      if k > 0 {
        CountedGrows(r, k, j - 1);
      }
    } else if Visits(r, numb, k) {
      assert Complete(r, k);
      if j > 0 && Counted(r, j) >= numb {
        CountedGrows(r, j, k);
      }
      assert false;
    }
  }

  lemma TakenMove(r: Ring, numb: nat, j: nat)
    requires Shaped(r) && Takes(r, numb, j)
    ensures forall k :: Visits(r, numb, k) ==> Moves(r, k)
  {
    forall k | Visits(r, numb, k)
      ensures Moves(r, k)
    {
      TakesVisits(r, numb, j, k);
    }
  }

  lemma TakesUnique(r: Ring, numb: nat, j: nat, k: nat)
    requires Shaped(r) && Takes(r, numb, j) && Takes(r, numb, k)
    ensures j == k
  {
    TakesVisits(r, numb, j, if j < k then j else k);
    TakesVisits(r, numb, k, if j < k then j else k);
  }

  // ------------------------------------------------- walks round the ring

  /** The index after the event at i. */
  function Next(r: Ring, i: nat): (n: nat)
    requires Shaped(r) && i < |r.words|
    ensures n < |r.words|
  {
    (i + Length(r.words[i])) % |r.words|
  }

  function Iterate(r: Ring, i: nat, n: nat): (k: nat)
    requires Shaped(r) && i < |r.words|
    ensures k < |r.words|
    decreases n
  {
    if n == 0 then i else Iterate(r, Next(r, i), n - 1)
  }

  lemma {:induction false} IterateAdd(r: Ring, i: nat, m: nat, n: nat)
    requires Shaped(r) && i < |r.words|
    ensures Iterate(r, i, m + n) == Iterate(r, Iterate(r, i, m), n)
    decreases m
  {
    if m > 0 {
      IterateAdd(r, Next(r, i), m - 1, n);
    }
  }

  /** Following events from i comes to `stop`. */
  ghost predicate Reaches(r: Ring, i: nat, stop: nat)
    requires Shaped(r) && i < |r.words|
  {
    exists n: nat :: Iterate(r, i, n) == stop
  }

  /** Following Next from `from` visits exactly `path` and then reaches `to`. */
  ghost predicate Walk(r: Ring, path: seq<nat>, from: nat, to: nat)
    requires Shaped(r)
    decreases |path|
  {
    if path == [] then from == to
    else from == path[0] < |r.words| && Walk(r, path[1..], Next(r, from), to)
  }

  lemma {:induction false} WalkJoin(r: Ring, a: seq<nat>, b: seq<nat>, x: nat, y: nat, z: nat)
    requires Shaped(r) && Walk(r, a, x, y) && Walk(r, b, y, z)
    ensures Walk(r, a + b, x, z)
    decreases |a|
  {
    if a == [] {
      assert a + b == b;
    } else {
      assert (a + b)[1..] == a[1..] + b;
      WalkJoin(r, a[1..], b, Next(r, x), y, z);
    }
  }

  /** A walk is so many steps, and its end is a walk from where they lead. */
  lemma {:induction false} WalkSteps(r: Ring, path: seq<nat>, from: nat, to: nat, k: nat)
    requires Shaped(r) && Walk(r, path, from, to) && from < |r.words| && k <= |path|
    ensures Walk(r, path[k..], Iterate(r, from, k), to)
    ensures Iterate(r, from, |path|) == to
    decreases |path|
  {
    if path == [] {
      assert path[k..] == [];
    } else {
      WalkSteps(r, path[1..], Next(r, from), to, if k == 0 then 0 else k - 1);
      assert k > 0 ==> path[1..][k - 1..] == path[k..];
    }
  }

  /** There is one walk to the first meeting with `to`. */
  lemma {:induction false} WalkUnique(r: Ring, a: seq<nat>, b: seq<nat>, from: nat, to: nat)
    requires Shaped(r) && Walk(r, a, from, to) && Walk(r, b, from, to) && to !in a && to !in b
    ensures a == b
    decreases |a|
  {
    if a != [] && b != [] {
      WalkUnique(r, a[1..], b[1..], Next(r, from), to);
      assert a == [a[0]] + a[1..] && b == [b[0]] + b[1..];
    }
  }

  // ------------------------------------------------- a walk that never ends

  ghost function UpTo(n: nat): (u: set<nat>)
    ensures |u| == n && forall i: nat :: i in u <==> i < n
  {
    if n == 0 then {} else UpTo(n - 1) + {n - 1}
  }

  /** A walk longer than the ring has come back to where it was. */
  lemma ComesBack(r: Ring, i: nat) returns (a: nat, b: nat)
    requires Shaped(r) && i < |r.words|
    ensures a < b <= |r.words| && Iterate(r, i, a) == Iterate(r, i, b)
  {
    var seen := seq(|r.words| + 1, k requires 0 <= k => Iterate(r, i, k));
    if Distinct(seen) {
      DistinctFits(seen, UpTo(|r.words|));
      assert false;
    }
    var x, y :| 0 <= x < y < |seen| && seen[x] == seen[y];
    a, b := x, y;
  }

  lemma {:induction false} Repeats(r: Ring, i: nat, a: nat, b: nat, n: nat) returns (m: nat)
    requires Shaped(r) && i < |r.words| && a < b <= |r.words| && Iterate(r, i, a) == Iterate(r, i, b)
    ensures m <= |r.words| && Iterate(r, i, m) == Iterate(r, i, n)
    decreases n
  {
    if n <= |r.words| {
      m := n;
    } else {
      IterateAdd(r, i, b, n - b);
      IterateAdd(r, i, a, n - b);
      m := Repeats(r, i, a, b, a + (n - b));
    }
  }

  /** What a walk does not meet in one turn of the ring it never meets. */
  lemma NeverMeets(r: Ring, i: nat, stop: nat)
    requires Shaped(r) && i < |r.words| && forall k: nat :: k <= |r.words| ==> Iterate(r, i, k) != stop
    ensures !Reaches(r, i, stop)
  {
    var a, b := ComesBack(r, i);
    forall n: nat
      ensures Iterate(r, i, n) != stop
    {
      var m := Repeats(r, i, a, b, n);
    }
  }

  // ------------------------------------------------- walks over whole events

  lemma Wrap(x: nat, n: nat)
    requires 0 < n && x <= n
    ensures x % n == if x == n then 0 else x
  {
  }

  /** The events of a stretch lead from its start to its end. */
  lemma {:induction false} EventsWalk(r: Ring, i: nat, end: nat)
    requires Shaped(r) && i <= end <= |r.words| && Tiled(r, i, end)
    ensures i < |r.words| ==> Walk(r, EventsIn(r, i, end), i, end % |r.words|)
    ensures forall e :: e in EventsIn(r, i, end) ==> i <= e < end
    decreases end - i
  {
    Wrap(end, |r.words|);
    if i < end {
      var n := i + Length(r.words[i]);
      Wrap(n, |r.words|);
      EventsWalk(r, n, end);
      assert EventsIn(r, i, end)[1..] == EventsIn(r, n, end);
    }
  }

  /** Where the walk over the last j buffers begins. */
  function From(r: Ring, j: nat): (i: nat)
    requires Shaped(r) && j <= r.buffers
    ensures i < |r.words|
  {
    if j == 0 then Index(r) else Start(r, j - 1)
  }

  lemma EndMeetsFrom(r: Ring, j: nat)
    requires Shaped(r) && j < r.buffers
    ensures End(r, j) % |r.words| == From(r, j)
  {
    Wrap(End(r, j), |r.words|);
  }

  /** No stretch of the run contains the current index. */
  lemma OutsideCurrent(r: Ring, j: nat)
    requires Shaped(r) && j < r.buffers
    ensures !(Start(r, j) <= Index(r) < End(r, j))
  {
  }

  lemma BufferWalk(r: Ring, j: nat)
    requires Shaped(r) && j < r.buffers && Tiles(r, j)
    ensures Walk(r, EventsOf(r, j), From(r, j + 1), From(r, j)) && Index(r) !in EventsOf(r, j)
  {
    EventsWalk(r, Start(r, j), End(r, j));
    EndMeetsFrom(r, j);
    OutsideCurrent(r, j);
  }

  lemma {:induction false} BackWalk(r: Ring, j: nat)
    requires Shaped(r) && AllTile(r, j)
    ensures Walk(r, Back(r, j), From(r, j), Index(r)) && Index(r) !in Back(r, j)
  {
    if j > 0 {
      BackWalk(r, j - 1);
      BufferWalk(r, j - 1);
      WalkJoin(r, EventsOf(r, j - 1), Back(r, j - 1), From(r, j), From(r, j - 1), Index(r));
    }
  }

  // ------------------------------------------------- the program

  /** Count the events of a buffer. */
  method CountEvents(r: Ring, start: nat, end: nat) returns (found: Option<nat>)
    requires Shaped(r) && end <= |r.words|
    ensures found.None? <==> !Advances(r, start, end)
    ensures found.Some? ==> found.value == Turns(r, start, end)
  {
    var n, i := 0, start;
    while i < end
      invariant Advances(r, i, end) <==> Advances(r, start, end)
      invariant Advances(r, i, end) ==> n + Turns(r, i, end) == Turns(r, start, end)
      decreases end - i
    {
      if Length(r.words[i]) == 0 {
        return None;  // the code stays at i for ever
      }
      i := i + Length(r.words[i]);
      n := n + 1;
    }
    found := Some(n);
  }

  /** One more complete buffer. */
  lemma OneMore(r: Ring, j: nat)
    requires Shaped(r) && j < r.buffers && AllComplete(r, j) && AllMove(r, j)
    ensures Start(r, j) / BUFFER_SIZE == Number(r, j)
    ensures Complete(r, j) && Moves(r, j) ==>
              && AllComplete(r, j + 1) && AllMove(r, j + 1)
              && Counted(r, j + 1) == Counted(r, j) + Turns(r, Start(r, j), End(r, j))
  {
  }

  /** Move to the previous buffer; after the last one it is the current buffer again. */
  method StepBack(r: Ring, from: nat, ghost j: nat) returns (bufferStart: nat, bufferEnd: nat)
    requires Shaped(r) && 0 < j <= r.buffers && from == Start(r, j - 1)
    ensures j < r.buffers ==> bufferStart == Start(r, j) && bufferEnd == End(r, j)
    ensures bufferStart == CurrentBuffer(r) * BUFFER_SIZE <==> j == r.buffers
  {
    if from == 0 {
      bufferStart := (r.buffers - 1) * BUFFER_SIZE;
    } else {
      bufferStart := from - BUFFER_SIZE;
    }
    bufferEnd := bufferStart + BUFFER_SIZE;
  }

  datatype Found = Found(startIndex: nat, found: nat, back: nat)

  /** The first loop of tracePrintLastEvents: how far back to go. */
  method FindStart(r: Ring, numb: nat) returns (s: Option<Found>)
    requires Shaped(r)
    ensures s.None? <==> exists j :: Visits(r, numb, j) && !Moves(r, j)
    ensures s.Some? ==> Takes(r, numb, s.value.back)
    ensures s.Some? ==> s.value.startIndex == From(r, s.value.back) && s.value.found == Counted(r, s.value.back)
  {
    var currentBufferStart := Index(r) / BUFFER_SIZE * BUFFER_SIZE;
    var bufferStart, bufferEnd := currentBufferStart, Index(r);
    var startIndex, found, j := Index(r), 0, 0;
    while true
      invariant j < r.buffers && AllComplete(r, j) && AllMove(r, j)
      invariant startIndex == From(r, j) && found == Counted(r, j) && (j > 0 ==> found < numb)
      invariant bufferStart == Start(r, j) && bufferEnd == End(r, j)
      decreases r.buffers - j
    {
      OneMore(r, j);
      if r.counts[bufferStart / BUFFER_SIZE] != bufferEnd - bufferStart {
        StopsShort(r, numb, j);
        break;
      }
      startIndex := bufferStart;
      var more := CountEvents(r, bufferStart, bufferEnd);
      if more.None? {
        assert Visits(r, numb, j) && !Moves(r, j);
        return None;
      }
      found := found + more.value;
      j := j + 1;
      if found >= numb {
        break;
      }
      bufferStart, bufferEnd := StepBack(r, bufferStart, j);
      if bufferStart == currentBufferStart {
        StopsShort(r, numb, j);
        break;
      }
    }
    s := Some(Found(startIndex, found, j));
    TakenMove(r, numb, j);
  }

  function Excess(found: nat, numb: nat): nat {
    if found > numb then found - numb else 0
  }

  /** Skip the events that were not asked for. */
  method Skip(r: Ring, start: nat, count: nat, numb: nat) returns (startIndex: nat)
    requires Shaped(r) && start < |r.words|
    ensures startIndex == Iterate(r, start, Excess(count, numb))
  {
    var found: nat := count;
    startIndex := start;
    while found > numb
      invariant startIndex < |r.words|
      invariant Iterate(r, startIndex, Excess(found, numb)) == Iterate(r, start, Excess(count, numb))
    {
      startIndex := Next(r, startIndex);
      found := found - 1;
    }
  }

  /** tracePrintEvents: the indices printed, in order. */
  method PrintEvents(r: Ring, startIndex: nat, stopIndex: nat) returns (printed: Option<seq<nat>>)
    requires Shaped(r) && startIndex < |r.words|
    ensures printed.Some? <==> Reaches(r, startIndex, stopIndex)
    ensures printed.Some? ==> Walk(r, printed.value, startIndex, stopIndex) && stopIndex !in printed.value
  {
    var i: nat, path: seq<nat> := startIndex, [];
    while i != stopIndex
      invariant |path| <= |r.words| && i < |r.words|
      invariant Walk(r, path, startIndex, i) && i == Iterate(r, startIndex, |path|)
      invariant forall k: nat :: k < |path| ==> path[k] == Iterate(r, startIndex, k) != stopIndex
      decreases |r.words| - |path|
    {
      if |path| == |r.words| {
        NeverMeets(r, startIndex, stopIndex);
        return None;  // the code goes round for ever
      }
      IterateAdd(r, startIndex, |path|, 1);
      assert Iterate(r, i, 1) == Next(r, i);
      assert Walk(r, [i], i, Next(r, i));
      WalkJoin(r, path, [i], startIndex, i, Next(r, i));
      path := path + [i];
      i := Next(r, i);
    }
    printed := Some(path);
  }

  // ------------------------------------------------- the whole program

  /** Where printing starts when the search ended with j buffers. */
  ghost function First(r: Ring, numb: nat, j: nat): (i: nat)
    requires Shaped(r) && AllMove(r, j)
    ensures i < |r.words|
  {
    Iterate(r, From(r, j), Excess(Counted(r, j), numb))
  }

  /** The search comes to a buffer it cannot count, or the print loop misses the current index. */
  ghost predicate Endless(r: Ring, numb: nat)
    requires Shaped(r)
  {
    || (exists j :: Visits(r, numb, j) && !Moves(r, j))
    || (exists j :: Takes(r, numb, j) && !Reaches(r, First(r, numb, j), Index(r)))
  }

  /** Every buffer that the search visits holds whole events. */
  ghost predicate VisitsTile(r: Ring, numb: nat)
    requires Shaped(r)
  {
    forall j :: Visits(r, numb, j) ==> Tiles(r, j)
  }

  /** The last n elements, or all of them. */
  function Last<T>(s: seq<T>, n: nat): seq<T> {
    if |s| <= n then s else s[|s| - n..]
  }

  /** When the buffers taken hold whole events, printing gives the last numb of these. */
  lemma TiledPrints(r: Ring, numb: nat, j: nat)
    requires Shaped(r) && AllTile(r, j) && AllMove(r, j)
    ensures var p := Last(Back(r, j), numb);
            Walk(r, p, First(r, numb, j), Index(r)) && Index(r) !in p
    ensures Reaches(r, First(r, numb, j), Index(r))
  {
    var all, n := Back(r, j), Excess(Counted(r, j), numb);
    TilesCount(r, j);
    BackWalk(r, j);
    WalkSteps(r, all, From(r, j), Index(r), n);
    assert Last(all, numb) == all[n..];
    WalkSteps(r, all[n..], First(r, numb, j), Index(r), 0);
  }

  /**
   * tracePrintLastEvents ends exactly if it is not Endless, and then prints what lies between
   * the start it found and the current index. If the buffers it visits hold whole events, these
   * are exactly the last min(numb, available) events of the buffers taken, in ring order.
   */
  method PrintLastEvents(r: Ring, numb: nat) returns (printed: Option<seq<nat>>)
    requires Shaped(r)
    ensures printed.None? <==> Endless(r, numb)
    ensures printed.Some? ==>
              exists j :: Takes(r, numb, j) && Walk(r, printed.value, First(r, numb, j), Index(r))
    ensures printed.Some? ==> Index(r) !in printed.value
    ensures VisitsTile(r, numb) ==>
              exists j :: Takes(r, numb, j) && AllTile(r, j) && printed == Some(Last(Back(r, j), numb))
  {
    var s := FindStart(r, numb);
    if s.None? {
      ghost var j :| Visits(r, numb, j) && !Moves(r, j);
      if Tiles(r, j) {
        TilesMove(r, j);
      }
      return None;
    }
    var j := s.value.back;
    var startIndex := Skip(r, s.value.startIndex, s.value.found, numb);
    printed := PrintEvents(r, startIndex, Index(r));
    assert startIndex == First(r, numb, j);
    forall k | Takes(r, numb, k)
      ensures k == j
    {
      TakesUnique(r, numb, j, k);
    }
    if VisitsTile(r, numb) {
      TakenTile(r, numb, j);
      TiledPrints(r, numb, j);
      WalkUnique(r, printed.value, Last(Back(r, j), numb), startIndex, Index(r));
    }
  }

  lemma TakenTile(r: Ring, numb: nat, j: nat)
    requires Shaped(r) && Takes(r, numb, j) && VisitsTile(r, numb)
    ensures AllTile(r, j)
  {
    forall k: nat | k < j
      ensures Tiles(r, k)
    {
      TakesVisits(r, numb, j, k);
    }
  }

  // ------------------------------------------------- what is enough

  /** Going further back only adds events in front. */
  lemma {:induction false} BackGrows(r: Ring, j: nat, m: nat, n: nat)
    requires Shaped(r) && AllTile(r, m) && j <= m && |Back(r, j)| >= n
    ensures |Back(r, m)| >= |Back(r, j)| && Last(Back(r, m), n) == Last(Back(r, j), n)
    decreases m
  {
    if j < m {
      BackGrows(r, j, m - 1, n);
      LastOfJoin(EventsOf(r, m - 1), Back(r, m - 1), n);
    }
  }

  lemma LastOfJoin<T>(a: seq<T>, b: seq<T>, n: nat)
    requires |b| >= n
    ensures Last(a + b, n) == Last(b, n)
  {
  }

  /** The buffers taken are as good as the longest run of complete buffers. */
  lemma LastOfLongest(r: Ring, numb: nat, j: nat)
    requires Shaped(r) && Takes(r, numb, j) && AllTile(r, Longest(r, 0))
    ensures AllTile(r, j) && Last(Back(r, j), numb) == Last(Back(r, Longest(r, 0)), numb)
  {
    var m := Longest(r, 0);
    if j != m {
      TilesCount(r, j);
      BackGrows(r, j, m, numb);
    }
  }

  /** The last event printed runs up to the current index. */
  lemma PrintedEndsAtIndex(r: Ring, numb: nat, j: nat)
    requires Shaped(r) && AllTile(r, j) && numb > 0 && Back(r, j) != []
    ensures var p := Last(Back(r, j), numb);
            p != [] && p[|p| - 1] < |r.words| && Next(r, p[|p| - 1]) == Index(r)
  {
    BackWalk(r, j);
    WalkEnds(r, Back(r, j), From(r, j), Index(r));
    LastOfLast(Back(r, j), numb);
  }

  lemma LastOfLast<T>(s: seq<T>, n: nat)
    requires s != [] && n > 0
    ensures Last(s, n) != [] && Last(s, n)[|Last(s, n)| - 1] == s[|s| - 1]
  {
  }

  lemma {:induction false} WalkEnds(r: Ring, path: seq<nat>, from: nat, to: nat)
    requires Shaped(r) && Walk(r, path, from, to) && path != []
    ensures path[|path| - 1] < |r.words| && Next(r, path[|path| - 1]) == to
    decreases |path|
  {
    if |path| > 1 {
      WalkEnds(r, path[1..], Next(r, from), to);
    }
  }

  // ------------------------------------------------- a ring that has not wrapped

  /** Something was logged to the buffer j back since tracing started or was reset. */
  predicate Written(r: Ring, j: nat) {
    j <= r.total / BUFFER_SIZE
  }

  /** How many buffers these are. */
  function WrittenBuffers(r: Ring): nat {
    if r.total / BUFFER_SIZE < r.buffers then r.total / BUFFER_SIZE + 1 else r.buffers
  }

  /** TraceStart and TraceReset mark the buffers still to be written as full. */
  ghost predicate MarkedFull(r: Ring)
    requires Shaped(r)
  {
    forall j: nat :: j < r.buffers && !Written(r, j) ==> r.counts[Number(r, j)] == BUFFER_SIZE
  }

  /** A buffer that was written and is complete holds whole events. */
  ghost predicate Kept(r: Ring)
    requires Shaped(r)
  {
    forall j: nat :: j < r.buffers && Written(r, j) && Complete(r, j) ==> Tiles(r, j)
  }

  /** All buffers have been written, or one of those written is not complete, or they hold enough. */
  ghost predicate Safe(r: Ring, numb: nat)
    requires Shaped(r)
  {
    var w := WrittenBuffers(r);
    w == r.buffers || !AllComplete(r, w) || (AllMove(r, w) && Counted(r, w) >= numb)
  }

  /** The search keeps to the buffers that were written if and only if the request is safe. */
  lemma OnlyWrittenIffSafe(r: Ring, numb: nat)
    requires Shaped(r) && Kept(r) && MarkedFull(r)
    ensures (forall j :: Visits(r, numb, j) ==> Written(r, j)) <==> Safe(r, numb)
  {
    var w := WrittenBuffers(r);
    if Safe(r, numb) {
      forall j | Visits(r, numb, j)
        ensures Written(r, j)
      {
        if w <= j {
          CountedGrows(r, w, j);
          assert AllComplete(r, w);
        }
      }
    } else {
      forall k: nat | k < w
        ensures Moves(r, k)
      {
        assert Complete(r, k);
        TilesMove(r, k);
      }
      assert Complete(r, w);
      assert Visits(r, numb, w) && !Written(r, w);
    }
  }

  /** A safe request is answered with the last events of the buffers taken. */
  lemma SafeTiles(r: Ring, numb: nat)
    requires Shaped(r) && Kept(r) && MarkedFull(r) && Safe(r, numb)
    ensures VisitsTile(r, numb) && !Endless(r, numb)
  {
    OnlyWrittenIffSafe(r, numb);
    forall j | Visits(r, numb, j)
      ensures Tiles(r, j) && Moves(r, j)
    {
      assert Complete(r, j);
      TilesMove(r, j);
    }
    forall j | Takes(r, numb, j)
      ensures Reaches(r, First(r, numb, j), Index(r))
    {
      TakenTile(r, numb, j);
      TiledPrints(r, numb, j);
    }
  }

  /**
   * childMain asks for as many events as the ring has words: before the last buffer is written
   * that is not safe, unless a buffer that was written is not complete.
   */
  lemma WholeRingUnsafe(r: Ring)
    requires Shaped(r) && WrittenBuffers(r) < r.buffers
    ensures Safe(r, r.buffers * BUFFER_SIZE) <==> !AllComplete(r, WrittenBuffers(r))
  {
  }

  /** As tracing starts on cleared memory: every request for an event is endless. */
  lemma FreshRingEndless(buffers: nat, numb: nat) returns (r: Ring)
    requires buffers > 1 && numb > 0
    ensures Shaped(r) && r.buffers == buffers && r.total == 0 && Kept(r) && MarkedFull(r)
    ensures Endless(r, numb)
  {
    r := Ring(buffers, seq(buffers * BUFFER_SIZE, _ => 0), seq(buffers, b => if b == 0 then 0 else BUFFER_SIZE), 0);
    assert Number(r, 0) == 0 && Number(r, 1) == buffers - 1;
    assert Complete(r, 0) && Complete(r, 1);
    assert Moves(r, 0) && Counted(r, 1) == 0;
    assert r.words[Start(r, 1)] == 0;
    assert Visits(r, numb, 1) && !Moves(r, 1);
  }
}
