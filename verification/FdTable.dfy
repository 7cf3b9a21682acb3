/**
 * The file-descriptor table of kitch-linux/lib/emu/FD.C: three bit vectors, the record array
 * and the state the server keeps for descriptors that are reopened lazily.
 */
module FdTable {
  import opened Prelude
  import opened FdBits

  type File = nat

  // ------------------------------------------------- one descriptor

  /** What the table and the server hold for one descriptor. */
  datatype Slot = Slot(active: bool, lazy: bool, coe: bool, ref: Option<File>, server: Option<File>)

  /**
   * coe and readyForLazy lie inside active, the server keeps exactly the lazy descriptors, and
   * an active descriptor has exactly one of a live ref and a lazy bit.
   */
  predicate SlotOk(s: Slot) {
    && (s.coe ==> s.active)
    && (s.lazy ==> s.active)
    && (s.lazy <==> s.server.Some?)
    && (s.active ==> (s.ref.Some? <==> !s.lazy))
  }

  /** The file a descriptor stands for. */
  function FileOf(s: Slot): Option<File> {
    if !s.active then None else if s.ref.Some? then s.ref else s.server
  }

  /** locked_getFD: an active descriptor without a ref is reopened. */
  function Got(s: Slot): Slot {
    if s.active && s.ref.None? then Slot(true, false, false, s.server, None) else s
  }

  /** locked_closeFD: the ref is left behind. */
  function Closed(s: Slot): Slot {
    Slot(false, false, false, s.ref, None)
  }

  function Freed(s: Slot): Slot {
    Closed(Got(s))
  }

  function Installed(file: File): Slot {
    Slot(true, false, false, Some(file), None)
  }

  /** allocFD sets the active bit, the ref and the coe bit, and nothing else. */
  function Allocated(s: Slot, file: File): Slot {
    s.(active := true, coe := false, ref := Some(file))
  }

  /** closeOnExec, for a descriptor with its close-on-exec bit set. */
  function Execed(s: Slot): Slot {
    if s.coe then Slot(false, false, false, None, None) else s
  }

  /** copyFDs, for an active descriptor that stays open: hand it to the server. */
  function Given(s: Slot): Slot {
    if s.active && s.ref.Some? && !s.lazy then Slot(true, true, s.coe, None, s.ref) else s
  }

  /** copyFDs(1) on this descriptor would follow a null reference. */
  predicate Dangles(s: Slot) {
    s.active && s.coe && s.ref.Some?
  }

  /** The whole walks over the table. */
  datatype Walk = CloseAllWalk | ExecWalk | ForkWalk | ForkExecWalk

  function Act(k: Walk, s: Slot): Slot {
    match k
    case CloseAllWalk => if s.active then Closed(s) else s
    case ExecWalk => Execed(s)
    case ForkWalk => Given(s)
    case ForkExecWalk => if s.active && s.coe then Given(Closed(s)) else Given(s)
  }

  function CopyWalk(exec: bool): Walk {
    if exec then ForkExecWalk else ForkWalk
  }

  /** The ref a walk detaches at this descriptor. */
  function Detached(k: Walk, s: Slot): seq<File> {
    var hit := match k
      case CloseAllWalk => s.active
      case ExecWalk => s.coe
      case ForkWalk => false
      case ForkExecWalk => s.active && s.coe;
    if hit && s.ref.Some? then [s.ref.value] else []
  }

  // ------------------------------------------------- all descriptors

  type Slots = s: seq<Slot> | |s| == FD_MAX witness seq(FD_MAX, i => Slot(false, false, false, None, None))

  ghost predicate TableOk(slots: Slots) {
    forall fd :: 0 <= fd < FD_MAX ==> SlotOk(slots[fd])
  }

  /** The map the table stands for. */
  ghost function Files(slots: Slots): (m: map<nat, File>)
    requires TableOk(slots)
    ensures forall fd: nat :: fd in m <==> fd < FD_MAX && slots[fd].active
    ensures forall fd :: fd in m ==> FileOf(slots[fd]) == Some(m[fd])
  {
    map fd: nat | fd < FD_MAX && slots[fd].active :: FileOf(slots[fd]).value
  }

  ghost function CloseOnExec(slots: Slots): (r: set<nat>)
    ensures forall fd: nat :: fd in r <==> fd < FD_MAX && slots[fd].coe
  {
    set fd: nat | fd < FD_MAX && slots[fd].coe
  }

  ghost function WalkAll(k: Walk, slots: Slots): Slots {
    seq(FD_MAX, fd requires 0 <= fd < FD_MAX => Act(k, slots[fd]))
  }

  /** The refs detached by a walk over the first n descriptors, in order. */
  ghost function DetachedBy(k: Walk, slots: Slots, n: nat): seq<File>
    requires n <= FD_MAX
  {
    if n == 0 then [] else DetachedBy(k, slots, n - 1) + Detached(k, slots[n - 1])
  }

  /** The descriptors at which closeAll and closeOnExec detach a file: a live ref, open or marked. */
  predicate DetachesAt(k: Walk, s: Slot)
    requires k == CloseAllWalk || k == ExecWalk
  {
    s.ref.Some? && (if k == CloseAllWalk then s.active else s.coe)
  }

  ghost predicate Ascending(fds: seq<nat>) {
    forall i, j :: 0 <= i < j < |fds| ==> fds[i] < fds[j]
  }

  /** These walks detach exactly the files of those descriptors, each once, in the order of the descriptors. */
  lemma {:induction false} DetachedExactly(k: Walk, slots: Slots, n: nat) returns (fds: seq<nat>)
    requires (k == CloseAllWalk || k == ExecWalk) && n <= FD_MAX
    ensures Ascending(fds) && |fds| == |DetachedBy(k, slots, n)|
    ensures forall fd: nat :: fd in fds <==> fd < n && DetachesAt(k, slots[fd])
    ensures forall i :: 0 <= i < |fds| ==> fds[i] < n && slots[fds[i]].ref == Some(DetachedBy(k, slots, n)[i])
  {
    if n == 0 {
      fds := [];
    } else {
      fds := DetachedExactly(k, slots, n - 1);
      if DetachesAt(k, slots[n - 1]) {
        fds := fds + [n - 1];
      }
    }
  }

  /** The walk has passed the first n descriptors. */
  ghost predicate Walked(k: Walk, was: Slots, now: Slots, n: nat) {
    forall fd: nat :: fd < FD_MAX ==> now[fd] == if fd < n then Act(k, was[fd]) else was[fd]
  }

  /** A descriptor the walk leaves alone. */
  lemma Passed(k: Walk, was: Slots, now: Slots, n: nat)
    requires Walked(k, was, now, n) && n < FD_MAX && Act(k, was[n]) == was[n] && Detached(k, was[n]) == []
    ensures Walked(k, was, now, n + 1) && DetachedBy(k, was, n + 1) == DetachedBy(k, was, n)
  {
  }

  lemma {:induction false} PassedTo(k: Walk, was: Slots, now: Slots, n: nat, m: nat)
    requires Walked(k, was, now, n) && n <= m <= FD_MAX
    requires forall fd: nat :: n <= fd < m ==> Act(k, was[fd]) == was[fd] && Detached(k, was[fd]) == []
    ensures Walked(k, was, now, m) && DetachedBy(k, was, m) == DetachedBy(k, was, n)
    decreases m - n
  {
    if n < m {
      Passed(k, was, now, n);
      PassedTo(k, was, now, n + 1, m);
    }
  }

  /** A descriptor the walk acts on. */
  lemma Stepped(k: Walk, was: Slots, now: Slots, now': Slots, n: nat)
    requires n < FD_MAX && Walked(k, was, now, n) && now' == now[n := Act(k, was[n])]
    ensures Walked(k, was, now', n + 1)
    ensures DetachedBy(k, was, n + 1) == DetachedBy(k, was, n) + Detached(k, was[n])
  {
  }

  lemma WalkDone(k: Walk, was: Slots, now: Slots)
    requires Walked(k, was, now, FD_MAX)
    ensures now == WalkAll(k, was)
  {
  }

  // ------------------------------------------------- scanning a word

  /** w holds the bits `f` of the descriptors of a word. */
  ghost predicate WordOf(was: Slots, word: nat, w: Word, f: Slot -> bool)
    requires word < WORDS
  {
    forall j: nat :: j < BITS ==> f(was[word * BITS + j]) == Bit(w, j)
  }

  /** The descriptors behind the end of a scan are not marked. */
  lemma RestUnmarked(was: Slots, word: nat, w: Word, k: nat, f: Slot -> bool)
    requires word < WORDS && WordOf(was, word, w, f) && Scans(0, w, k)
    ensures forall fd: nat :: word * BITS + k <= fd < word * BITS + BITS ==> !f(was[fd])
  {
    forall fd: nat | word * BITS + k <= fd < word * BITS + BITS
      ensures !f(was[fd])
    {
      var j := fd - word * BITS;
      ScanEnds(w, k, j);
      assert f(was[word * BITS + j]) == Bit(w, j);
    }
  }

  function ExecutingSlot(s: Slot, finished: bool, scanned: bool): Slot {
    if finished then Execed(s) else if scanned then Execed(s).(coe := s.coe) else s
  }

  /** closeOnExec part way through a word: from `base` on the coe bits are still there. */
  ghost predicate Executing(was: Slots, now: Slots, base: nat, n: nat) {
    forall fd: nat :: fd < FD_MAX ==> now[fd] == ExecutingSlot(was[fd], fd < base, fd < n)
  }

  lemma {:induction false} ExecPasses(was: Slots, now: Slots, base: nat, n: nat, m: nat)
    requires Executing(was, now, base, n) && base <= n <= m <= FD_MAX
    requires forall fd: nat :: n <= fd < m ==> !was[fd].coe
    ensures Executing(was, now, base, m) && DetachedBy(ExecWalk, was, m) == DetachedBy(ExecWalk, was, n)
    decreases m - n
  {
    if n < m {
      assert !was[n].coe;
      ExecPasses(was, now, base, n + 1, m);
    }
  }

  ghost predicate NoneDangles(was: Slots, from: nat, to: nat) {
    forall fd: nat :: from <= fd < to && fd < FD_MAX ==> !Dangles(was[fd])
  }

  lemma DanglesAt(was: Slots, fd: nat)
    requires fd < FD_MAX && Dangles(was[fd])
    ensures !NoneDangles(was, 0, FD_MAX)
  {
  }

  lemma NoneDanglesJoin(was: Slots, from: nat, mid: nat, to: nat)
    requires NoneDangles(was, from, mid) && NoneDangles(was, mid, to)
    ensures NoneDangles(was, from, to)
  {
  }

  lemma CopyScanPasses(was: Slots, now: Slots, exec: bool, word: nat, w: Word, n: nat)
    requires word < WORDS && WordOf(was, word, w, (s: Slot) => s.active) && Scans(0, w, n)
    requires Walked(CopyWalk(exec), was, now, word * BITS + n)
    ensures Walked(CopyWalk(exec), was, now, word * BITS + BITS)
    ensures NoneDangles(was, word * BITS + n, word * BITS + BITS)
  {
    var isActive := (s: Slot) => s.active;
    RestUnmarked(was, word, w, n, isActive);
    ScanPasses(CopyWalk(exec), was, now, word, w, n, isActive);
    forall fd: nat | word * BITS + n <= fd < word * BITS + BITS
      ensures !Dangles(was[fd])
    {
      assert !isActive(was[fd]);
    }
  }

  /** When the scan of a coe word has run out of bits, the rest of the word is left alone. */
  lemma ExecScanPasses(was: Slots, now: Slots, word: nat, w: Word, n: nat)
    requires word < WORDS && WordOf(was, word, w, (s: Slot) => s.coe) && Scans(0, w, n)
    requires Executing(was, now, word * BITS, word * BITS + n)
    ensures Executing(was, now, word * BITS, word * BITS + BITS)
    ensures DetachedBy(ExecWalk, was, word * BITS + BITS) == DetachedBy(ExecWalk, was, word * BITS + n)
  {
    var isMarked := (s: Slot) => s.coe;
    RestUnmarked(was, word, w, n, isMarked);
    forall fd: nat | word * BITS + n <= fd < word * BITS + BITS
      ensures !was[fd].coe
    {
      assert !isMarked(was[fd]);
    }
    ExecPasses(was, now, word * BITS, word * BITS + n, word * BITS + BITS);
  }

  lemma ExecStarts(was: Slots, now: Slots, n: nat)
    requires Walked(ExecWalk, was, now, n)
    ensures Executing(was, now, n, n)
  {
  }

  lemma MarkedAt(was: Slots, word: nat, w: Word, k: nat)
    requires word < WORDS && WordOf(was, word, w, (s: Slot) => s.coe) && k < BITS
    ensures was[word * BITS + k].coe == Bit(w, k)
  {
  }

  lemma ExecStepped(was: Slots, now: Slots, now': Slots, base: nat, n: nat)
    requires base <= n < FD_MAX && Executing(was, now, base, n) && now' == now[n := ExecutingSlot(was[n], false, true)]
    ensures Executing(was, now', base, n + 1)
    ensures DetachedBy(ExecWalk, was, n + 1) == DetachedBy(ExecWalk, was, n) + Detached(ExecWalk, was[n])
  {
  }

  function Unmarked(s: Slot, here: bool): Slot {
    if here then s.(coe := false) else s
  }

  /** Clearing the coe bits of the word completes it. */
  lemma WordCleared(word: nat, was: Slots, now: Slots, now': Slots)
    requires word < WORDS && Executing(was, now, word * BITS, word * BITS + BITS)
    requires forall fd: nat :: fd < FD_MAX ==> now'[fd] == Unmarked(now[fd], fd / BITS == word)
    ensures Walked(ExecWalk, was, now', word * BITS + BITS)
  {
  }

  /** When the scan has run out of bits, the rest of the word is left alone. */
  lemma ScanPasses(k: Walk, was: Slots, now: Slots, word: nat, w: Word, n: nat, f: Slot -> bool)
    requires word < WORDS && WordOf(was, word, w, f) && Scans(0, w, n) && Walked(k, was, now, word * BITS + n)
    requires forall fd: nat :: fd < FD_MAX && !f(was[fd]) ==> Act(k, was[fd]) == was[fd] && Detached(k, was[fd]) == []
    ensures Walked(k, was, now, word * BITS + BITS)
    ensures DetachedBy(k, was, word * BITS + BITS) == DetachedBy(k, was, word * BITS + n)
  {
    RestUnmarked(was, word, w, n, f);
    PassedTo(k, was, now, word * BITS + n, word * BITS + BITS);
  }

  /** w >> k */
  function Shr(w: nat, k: nat): nat {
    if k == 0 then w else Shr(w, k - 1) / 2
  }

  lemma {:induction false} ShrBit(w: nat, k: nat, j: nat)
    ensures Bit(Shr(w, k), j) == Bit(w, j + k)
    decreases k
  {
    if k > 0 {
      ShrBit(w, k - 1, j + 1);
    }
  }

  /** A scan of w has come to bit k. */
  predicate Scans(mask: nat, w: Word, k: nat) {
    k <= BITS && mask < One(BITS - k) && mask == Shr(w, k)
  }

  lemma ScanStarts(w: Word)
    ensures Scans(w, w, 0)
  {
    WordSize();
  }

  lemma ScanMoves(mask: nat, w: Word, k: nat)
    requires Scans(mask, w, k) && mask != 0
    ensures k < BITS && Scans(mask / 2, w, k + 1) && (mask % 2 == 1 <==> Bit(w, k))
  {
    ShrBit(w, k, 0);
  }

  lemma ScanEnds(w: Word, k: nat, j: nat)
    requires Scans(0, w, k) && j >= k
    ensures !Bit(w, j)
  {
    ShrBit(w, k, j - k);
    HighClear(0, 0, j - k);
  }

  // ------------------------------------------------- what an allocation finds

  /** fd is the least inactive descriptor at or above lowest. */
  ghost predicate LeastInactive(slots: Slots, lowest: nat, fd: nat) {
    lowest <= fd < FD_MAX && !slots[fd].active && AllActive(slots, lowest, fd)
  }

  ghost predicate AllActive(slots: Slots, from: nat, to: nat) {
    forall f: nat :: from <= f < to && f < FD_MAX ==> slots[f].active
  }

  /** From `lowest` to the end of its word all are active, and some before `lowest` in that word is not. */
  ghost predicate InGap(slots: Slots, lowest: nat) {
    && AllActive(slots, lowest, NextWord(lowest))
    && exists f: nat :: lowest / BITS * BITS <= f < lowest && f < FD_MAX && !slots[f].active
  }

  /** The bits of `active` and the slots agree. */
  ghost predicate ActiveBits(b: Bits, slots: Slots) {
    forall fd: nat {:trigger slots[fd]} :: fd < FD_MAX ==> Has(b, fd) == slots[fd].active
  }

  lemma WordBit(b: Bits, slots: Slots, word: nat, j: nat)
    requires ActiveBits(b, slots) && word < WORDS && j < BITS
    ensures Bit(b[word], j) == slots[word * BITS + j].active
  {
    assert (word * BITS + j) / BITS == word && (word * BITS + j) % BITS == j;
  }

  lemma GapFromSlots(b: Bits, slots: Slots, lowest: nat)
    requires ActiveBits(b, slots) && lowest < FD_MAX && InGap(slots, lowest)
    ensures Gap(b, lowest)
  {
    var word, low := lowest / BITS, lowest % BITS;
    WordSize();
    OrLowFits(b[word], low, BITS);
    AllOnes(b[word]);
    AllOnes(OrLow(b[word], low));
    var f: nat :| word * BITS <= f < lowest && f < FD_MAX && !slots[f].active;
    WordBit(b, slots, word, f - word * BITS);
    forall j: nat | j < BITS
      ensures Bit(OrLow(b[word], low), j)
    {
      OrLowBit(b[word], low, j);
      WordBit(b, slots, word, j);
    }
  }

  lemma GapToSlots(b: Bits, slots: Slots, lowest: nat)
    requires ActiveBits(b, slots) && lowest < FD_MAX && Gap(b, lowest)
    ensures InGap(slots, lowest)
  {
    var word, low := lowest / BITS, lowest % BITS;
    AllOnes(b[word]);
    AllOnes(OrLow(b[word], low));
    forall j: nat | j < BITS
      ensures j >= low ==> slots[word * BITS + j].active
      ensures Bit(b[word], j) == slots[word * BITS + j].active
    {
      OrLowBit(b[word], low, j);
      WordBit(b, slots, word, j);
    }
    var j: nat :| j < BITS && !Bit(b[word], j);
    assert !slots[word * BITS + j].active;
    forall f: nat | lowest <= f < NextWord(lowest) && f < FD_MAX
      ensures slots[f].active
    {
      assert slots[word * BITS + (f - word * BITS)].active;
    }
  }

  lemma FreeInSlots(b: Bits, slots: Slots, lowest: nat, r: Option<nat>)
    requires ActiveBits(b, slots) && LeastFree(b, lowest, r)
    ensures r.Some? ==> LeastInactive(slots, lowest, r.value)
    ensures r.None? ==> AllActive(slots, lowest, FD_MAX)
  {
    forall f: nat | lowest <= f < (if r.Some? then r.value else FD_MAX) && f < FD_MAX
      ensures slots[f].active
    {
      assert Has(b, f) == slots[f].active;
    }
    if r.Some? {
      assert Has(b, r.value) == slots[r.value].active;
    }
  }

  /** The result of a call on a descriptor that the code does not check: outside the table it goes astray. */
  datatype Outcome<T> = Done(value: T) | OutOfTable

  datatype ReplaceResult = Replaced(was: Option<File>) | TooBig | PastEnd

  /** A mark is set or cleared on an active descriptor only. */
  ghost function Marked(slots: Slots, fd: nat, flag: bool): Slots
    requires fd < FD_MAX
  {
    if slots[fd].active then slots[fd := slots[fd].(coe := flag)] else slots
  }

  datatype AllocResult = Fd(fd: nat) | NoneFree | BadLowest | Overrun(fd: nat)

  class Table {
    var active: Bits
    var readyForLazy: Bits
    var coe: Bits
    var refs: seq<Option<File>>
    var server: map<nat, File>
    var detached: seq<File>

    /** The slots the fields stand for. */
    ghost var slots: Slots

    function At(fd: nat): Slot
      requires fd < FD_MAX && |refs| == FD_MAX
      reads this
    {
      Slot(Has(active, fd), Has(readyForLazy, fd), Has(coe, fd), refs[fd],
           if fd in server then Some(server[fd]) else None)
    }

    ghost predicate Coupled()
      reads this
    {
      |refs| == FD_MAX && forall fd: nat {:trigger At(fd)} :: fd < FD_MAX ==> slots[fd] == At(fd)
    }

    /** A call that touches one descriptor only has to account for that one. */
    twostate lemma Recouple(fd: nat)
      requires fd < FD_MAX && old(Coupled()) && |refs| == FD_MAX && slots == old(slots)[fd := At(fd)]
      requires forall f: nat :: f < FD_MAX && f != fd ==> At(f) == old(At(f))
      ensures Coupled()
    {
      forall f: nat | f < FD_MAX
        ensures slots[f] == At(f)
      {
        assert old(slots)[f] == old(At(f));
      }
    }

    /** ClassInit without a parent. */
    constructor ()
      ensures Coupled() && TableOk(slots) && Files(slots) == map[] && CloseOnExec(slots) == {} && detached == []
    {
      active, readyForLazy, coe := Zero(), Zero(), Zero();
      refs := seq(FD_MAX, i => None);
      server := map[];
      detached := [];
      slots := seq(FD_MAX, i => Slot(false, false, false, None, None));
    }

    /** ClassInit after a fork or exec: everything inherited is lazy. */
    constructor Inherit(fromParent: Bits, kept: map<nat, File>)
      requires forall fd :: fd in kept <==> Has(fromParent, fd)
      ensures Coupled() && TableOk(slots) && Files(slots) == kept && CloseOnExec(slots) == {} && detached == []
    {
      active, readyForLazy, coe := fromParent, fromParent, Zero();
      refs := seq(FD_MAX, i => None);
      server := kept;
      detached := [];
      slots := seq(FD_MAX, i requires 0 <= i < FD_MAX =>
        Slot(Has(fromParent, i), Has(fromParent, i), false, None, if i in kept then Some(kept[i]) else None));
    }

    /** locked_lazyGetFD, after the tests of its caller. */
    method Reopen(fd: nat) returns (file: File)
      requires fd < FD_MAX && Coupled() && TableOk(slots) && slots[fd].active && slots[fd].ref.None?
      modifies this`readyForLazy, this`coe, this`refs, this`server, this`slots
      ensures Coupled() && slots == old(slots)[fd := Got(old(slots)[fd])] && slots[fd].ref == Some(file)
    {
      assert slots[fd] == At(fd) && SlotOk(slots[fd]);
      readyForLazy := ClrBit(readyForLazy, fd);
      file := server[fd];
      server := server - {fd};
      refs := refs[fd := Some(file)];
      coe := ClrBit(coe, fd);
      slots := slots[fd := Got(slots[fd])];
      Recouple(fd);
    }

    /** getFD */
    method GetFD(fd: nat) returns (r: Option<File>)
      requires Coupled() && TableOk(slots)
      modifies this`readyForLazy, this`coe, this`refs, this`server, this`slots
      ensures Coupled()
      ensures fd >= FD_MAX ==> r == None && slots == old(slots)
      ensures fd < FD_MAX ==> r == FileOf(old(slots)[fd]) && slots == old(slots)[fd := Got(old(slots)[fd])]
    {
      if fd >= FD_MAX {
        return None;
      }
      assert slots[fd] == At(fd);
      if !Has(active, fd) {
        return None;
      }
      if refs[fd].Some? {
        return refs[fd];
      }
      var file := Reopen(fd);
      r := Some(file);
    }

    /** locked_closeFD; false stands for EBADF. */
    method CloseFD(fd: int) returns (r: Outcome<bool>)
      requires Coupled() && (0 <= fd < FD_MAX ==> SlotOk(slots[fd]))
      modifies this`active, this`readyForLazy, this`coe, this`server, this`detached, this`slots
      ensures Coupled()
      ensures fd < 0 || fd >= FD_MAX ==> r == OutOfTable && slots == old(slots) && detached == old(detached)
      ensures 0 <= fd < FD_MAX ==>
                && r == Done(old(slots)[fd].active)
                && slots == old(slots)[fd := Closed(old(slots)[fd])]
                && detached == old(detached) +
                     (if old(slots)[fd].active && old(slots)[fd].ref.Some? then [old(slots)[fd].ref.value] else [])
    {
      if fd < 0 || fd >= FD_MAX {
        return OutOfTable;  // the code tests and clears bits outside the vectors
      }
      assert slots[fd] == At(fd);
      var file: Option<File> := if Has(active, fd) then refs[fd] else None;
      active := ClrBit(active, fd);
      coe := ClrBit(coe, fd);
      slots := slots[fd := Closed(slots[fd])];
      if file.None? && !Has(readyForLazy, fd) {
        Recouple(fd);
        return Done(false);
      }
      if Has(readyForLazy, fd) {
        readyForLazy := ClrBit(readyForLazy, fd);
        server := server - {fd};
      }
      if file.Some? {
        detached := detached + [file.value];
      }
      Recouple(fd);
      r := Done(true);
    }

    /** freeFD: the file is handed back instead of being detached. */
    method FreeFD(fd: nat) returns (r: Outcome<Option<File>>)
      requires Coupled() && TableOk(slots)
      modifies this`active, this`readyForLazy, this`coe, this`refs, this`server, this`slots
      ensures Coupled()
      ensures fd >= FD_MAX ==> r == OutOfTable && slots == old(slots)
      ensures fd < FD_MAX ==>
                r == Done(FileOf(old(slots)[fd])) && slots == old(slots)[fd := Freed(old(slots)[fd])]
    {
      if fd >= FD_MAX {
        return OutOfTable;  // likewise
      }
      var file := GetFD(fd);
      label Looked:
      assert slots[fd] == At(fd) && SlotOk(old(slots)[fd]);
      coe := ClrBit(coe, fd);
      active := ClrBit(active, fd);
      // locked_getFD has reopened a lazy descriptor, so no lazy close is left to do
      assert !Has(readyForLazy, fd);
      slots := slots[fd := Closed(slots[fd])];
      Recouple@Looked(fd);
      r := Done(file);
    }

    /** replaceFD */
    method ReplaceFD(file: File, fd: nat) returns (r: ReplaceResult)
      requires Coupled() && TableOk(slots)
      modifies this`active, this`readyForLazy, this`coe, this`refs, this`server, this`slots
      ensures Coupled()
      ensures r.PastEnd? <==> fd == FD_MAX
      ensures r.TooBig? <==> fd > FD_MAX
      ensures fd >= FD_MAX ==> slots == old(slots)
      ensures fd < FD_MAX ==> r == Replaced(FileOf(old(slots)[fd])) && slots == old(slots)[fd := Installed(file)]
    {
      if fd > FD_MAX {
        return TooBig;
      }
      if fd == FD_MAX {
        return PastEnd;  // the code goes on to write one record past the table
      }
      assert slots[fd] == At(fd) && SlotOk(slots[fd]);
      var was: Option<File> := None;
      var inUse := Has(active, fd);
      if inUse {
        was := GetFD(fd);
      }
      label Looked:
      assert slots[fd] == At(fd);
      if !inUse {
        active := SetBit(active, fd);
      }
      refs := refs[fd := Some(file)];
      // no lazy close is left to do here either
      assert !Has(readyForLazy, fd) && fd !in server;
      coe := ClrBit(coe, fd);
      slots := slots[fd := Installed(file)];
      Recouple@Looked(fd);
      r := Replaced(was);
    }

    /** allocFD */
    method AllocFD(file: File, lowest: nat) returns (r: AllocResult)
      requires Coupled() && TableOk(slots)
      modifies this`active, this`coe, this`refs, this`slots
      ensures Coupled()
      ensures r.BadLowest? <==> lowest >= FD_MAX
      ensures lowest < FD_MAX && !InGap(old(slots), lowest) ==>
                || (r.Fd? && LeastInactive(old(slots), lowest, r.fd))
                || (r.NoneFree? && AllActive(old(slots), lowest, FD_MAX))
      ensures lowest < FD_MAX && InGap(old(slots), lowest) ==>
                r == (if NextWord(lowest) < FD_MAX then Fd(NextWord(lowest)) else Overrun(NextWord(lowest)))
      ensures !r.Fd? ==> slots == old(slots)
      ensures r.Fd? ==> r.fd < FD_MAX && slots == old(slots)[r.fd := Allocated(old(slots)[r.fd], file)]
    {
      if lowest >= FD_MAX {
        return BadLowest;
      }
      var found := FindZero(active, lowest);
      FoundInSlots(lowest, found);
      if found.None? {
        return NoneFree;
      }
      var fd := found.value;
      if fd >= FD_MAX {
        return Overrun(fd);  // the code goes on to write outside the table
      }
      assert slots[fd] == At(fd);
      active := SetBit(active, fd);
      refs := refs[fd := Some(file)];
      coe := ClrBit(coe, fd);
      slots := slots[fd := Allocated(slots[fd], file)];
      Recouple(fd);
      r := Fd(fd);
    }

    /** What findZero gives, in terms of the slots. */
    lemma FoundInSlots(lowest: nat, found: Option<nat>)
      requires Coupled() && lowest < FD_MAX
      requires Gap(active, lowest) ==> found == Some(NextWord(lowest))
      requires !Gap(active, lowest) ==> LeastFree(active, lowest, found)
      ensures InGap(slots, lowest) ==> found == Some(NextWord(lowest))
      ensures !InGap(slots, lowest) && found.Some? ==> LeastInactive(slots, lowest, found.value)
      ensures !InGap(slots, lowest) && found.None? ==> AllActive(slots, lowest, FD_MAX)
    {
      assert ActiveBits(active, slots) by {
        forall fd: nat | fd < FD_MAX
          ensures Has(active, fd) == slots[fd].active
        {
          assert slots[fd] == At(fd);
        }
      }
      if Gap(active, lowest) {
        GapToSlots(active, slots, lowest);
      } else {
        if InGap(slots, lowest) {
          GapFromSlots(active, slots, lowest);
        }
        FreeInSlots(active, slots, lowest, found);
      }
    }

    /**
     * allocFD with its default argument: the least inactive descriptor, or none when every
     * descriptor is active.
     */
    method AllocLowest(file: File) returns (r: AllocResult)
      requires Coupled() && TableOk(slots)
      modifies this`active, this`coe, this`refs, this`slots
      ensures Coupled()
      ensures r.Fd? || r.NoneFree?
      ensures r.NoneFree? <==> AllActive(old(slots), 0, FD_MAX)
      ensures r.NoneFree? ==> slots == old(slots)
      ensures r.Fd? ==>
                LeastInactive(old(slots), 0, r.fd) && slots == old(slots)[r.fd := Allocated(old(slots)[r.fd], file)]
    {
      r := AllocFD(file, 0);
    }

    /** setCOE */
    method SetCOE(fd: nat, flag: bool) returns (r: Outcome<()>)
      requires Coupled()
      modifies this`coe, this`slots
      ensures Coupled()
      ensures fd >= FD_MAX ==> r == OutOfTable && slots == old(slots)
      ensures fd < FD_MAX ==> r == Done(()) && slots == Marked(old(slots), fd, flag)
    {
      if fd >= FD_MAX {
        return OutOfTable;  // likewise
      }
      assert slots[fd] == At(fd);
      if Has(active, fd) {
        coe := if flag then SetBit(coe, fd) else ClrBit(coe, fd);
        slots := slots[fd := slots[fd].(coe := flag)];
        Recouple(fd);
      }
      r := Done(());
    }

    // ----------------------------------------------- the walks

    /** closeAll */
    method CloseAll()
      requires Coupled() && TableOk(slots)
      modifies this
      ensures Coupled() && slots == WalkAll(CloseAllWalk, old(slots))
      ensures detached == old(detached) + DetachedBy(CloseAllWalk, old(slots), FD_MAX)
    {
      ghost var was := slots;
      for word := 0 to WORDS
        invariant Coupled() && Walked(CloseAllWalk, was, slots, word * BITS)
        invariant detached == old(detached) + DetachedBy(CloseAllWalk, was, word * BITS)
      {
        CloseWord(word, was, old(detached));
      }
      WalkDone(CloseAllWalk, was, slots);
    }

    /** The inner loop of closeAll. */
    method CloseWord(word: nat, ghost was: Slots, ghost gone: seq<File>)
      requires word < WORDS && Coupled() && TableOk(was)
      requires Walked(CloseAllWalk, was, slots, word * BITS)
      requires detached == gone + DetachedBy(CloseAllWalk, was, word * BITS)
      modifies this
      ensures Coupled() && Walked(CloseAllWalk, was, slots, word * BITS + BITS)
      ensures detached == gone + DetachedBy(CloseAllWalk, was, word * BITS + BITS)
    {
      ghost var w := active[word];
      ghost var isActive := (s: Slot) => s.active;
      var mask: nat := active[word];
      var fd := word * BITS;
      ghost var k := 0;
      ScanStarts(w);
      ActiveWord(word, was, CloseAllWalk);
      while mask != 0
        invariant fd == word * BITS + k && Scans(mask, w, k)
        invariant Coupled() && Walked(CloseAllWalk, was, slots, fd)
        invariant detached == gone + DetachedBy(CloseAllWalk, was, fd)
        decreases mask
      {
        ScanMoves(mask, w, k);
        assert isActive(was[word * BITS + k]) == Bit(w, k);
        CloseMarked(fd, mask % 2 == 1, was, gone);
        fd, mask, k := fd + 1, mask / 2, k + 1;
      }
      ScanPasses(CloseAllWalk, was, slots, word, w, k, isActive);
    }

    /** One turn of that loop. */
    method CloseMarked(fd: nat, marked: bool, ghost was: Slots, ghost gone: seq<File>)
      requires fd < FD_MAX && Coupled() && TableOk(was) && marked == was[fd].active
      requires Walked(CloseAllWalk, was, slots, fd)
      requires detached == gone + DetachedBy(CloseAllWalk, was, fd)
      modifies this
      ensures Coupled() && Walked(CloseAllWalk, was, slots, fd + 1)
      ensures detached == gone + DetachedBy(CloseAllWalk, was, fd + 1)
    {
      ghost var now := slots;
      assert now[fd] == was[fd];
      if marked {
        var _ := CloseFD(fd);
        Stepped(CloseAllWalk, was, now, slots, fd);
      } else {
        Passed(CloseAllWalk, was, now, fd);
      }
    }

    /** The word of `active` that a walk is about to scan still holds the bits it began with. */
    lemma ActiveWord(word: nat, was: Slots, k: Walk)
      requires word < WORDS && Coupled() && Walked(k, was, slots, word * BITS)
      ensures WordOf(was, word, active[word], (s: Slot) => s.active)
    {
      forall j: nat | j < BITS
        ensures was[word * BITS + j].active == Bit(active[word], j)
      {
        assert At(word * BITS + j) == was[word * BITS + j];
        assert (word * BITS + j) / BITS == word && (word * BITS + j) % BITS == j;
      }
    }

    /**
     * copyFDs: forkAll when `exec` is false, execAll when it is true. The result is true if the
     * code follows a null reference: a closed descriptor keeps its ref and is then looked up.
     */
    method CopyFDs(exec: bool) returns (crashed: bool)
      requires Coupled() && TableOk(slots)
      modifies this
      ensures Coupled()
      ensures crashed <==> exec && !NoneDangles(old(slots), 0, FD_MAX)
      ensures !crashed ==> slots == WalkAll(CopyWalk(exec), old(slots)) && detached == old(detached)
    {
      ghost var was := slots;
      for word := 0 to WORDS
        invariant Coupled() && Walked(CopyWalk(exec), was, slots, word * BITS) && detached == old(detached)
        invariant exec ==> NoneDangles(was, 0, word * BITS)
      {
        crashed := CopyWord(word, exec, was);
        if crashed {
          return;
        }
      }
      WalkDone(CopyWalk(exec), was, slots);
      crashed := false;
    }

    /** The inner loop of copyFDs. */
    method CopyWord(word: nat, exec: bool, ghost was: Slots) returns (crashed: bool)
      requires word < WORDS && Coupled() && TableOk(was)
      requires Walked(CopyWalk(exec), was, slots, word * BITS)
      modifies this
      ensures Coupled()
      ensures crashed ==> exec && !NoneDangles(was, 0, FD_MAX)
      ensures !crashed ==> Walked(CopyWalk(exec), was, slots, word * BITS + BITS) && detached == old(detached)
      ensures !crashed && exec ==> NoneDangles(was, word * BITS, word * BITS + BITS)
    {
      ghost var w := active[word];
      ghost var isActive := (s: Slot) => s.active;
      var rest: nat := active[word];  // word & ~scan, shifted down to the bit being looked at
      var fd := word * BITS;
      ghost var k := 0;
      ScanStarts(w);
      ActiveWord(word, was, CopyWalk(exec));
      while rest != 0
        invariant fd == word * BITS + k && Scans(rest, w, k)
        invariant Coupled() && Walked(CopyWalk(exec), was, slots, fd) && detached == old(detached)
        invariant exec ==> NoneDangles(was, word * BITS, fd)
        decreases rest
      {
        ScanMoves(rest, w, k);
        assert isActive(was[word * BITS + k]) == Bit(w, k);
        crashed := CopyMarked(fd, rest % 2 == 1, exec, was);
        if crashed {
          DanglesAt(was, fd);
          return;
        }
        fd, rest, k := fd + 1, rest / 2, k + 1;
      }
      CopyScanPasses(was, slots, exec, word, w, k);
      if exec {
        NoneDanglesJoin(was, word * BITS, fd, word * BITS + BITS);
      }
      crashed := false;
    }

    /** One turn of that loop. */
    method CopyMarked(fd: nat, marked: bool, exec: bool, ghost was: Slots) returns (crashed: bool)
      requires fd < FD_MAX && Coupled() && TableOk(was) && marked == was[fd].active
      requires Walked(CopyWalk(exec), was, slots, fd)
      modifies this
      ensures Coupled()
      ensures crashed <==> exec && Dangles(was[fd])
      ensures !crashed ==> Walked(CopyWalk(exec), was, slots, fd + 1) && detached == old(detached)
    {
      ghost var now := slots;
      assert now[fd] == was[fd] == At(fd) && SlotOk(was[fd]);
      if !marked {
        Passed(CopyWalk(exec), was, now, fd);
        return false;
      }
      if exec && Has(coe, fd) {
        var _ := CloseFD(fd);
      }
      label Kept:
      assert slots[fd] == At(fd);
      if refs[fd].Some? && !Has(readyForLazy, fd) {
        readyForLazy := SetBit(readyForLazy, fd);
        slots := slots[fd := slots[fd].(lazy := true)];
        if !Has(active, fd) {
          Recouple@Kept(fd);
          return true;
        }
        server := server[fd := refs[fd].value];
        refs := refs[fd := None];
        slots := slots[fd := Given(was[fd])];
        Recouple@Kept(fd);
      }
      Stepped(CopyWalk(exec), was, now, slots, fd);
      crashed := false;
    }

    /** closeOnExec */
    method CloseMarkedOnExec()
      requires Coupled() && TableOk(slots)
      modifies this
      ensures Coupled() && slots == WalkAll(ExecWalk, old(slots))
      ensures detached == old(detached) + DetachedBy(ExecWalk, old(slots), FD_MAX)
    {
      ghost var was := slots;
      for word := 0 to WORDS
        invariant Coupled() && Walked(ExecWalk, was, slots, word * BITS)
        invariant detached == old(detached) + DetachedBy(ExecWalk, was, word * BITS)
      {
        ExecWord(word, was, old(detached));
        ghost var now := slots;
        ClearCoeWord(word);
        WordCleared(word, was, now, slots);
      }
      WalkDone(ExecWalk, was, slots);
    }

    lemma CoeWord(word: nat, was: Slots)
      requires word < WORDS && Coupled() && Walked(ExecWalk, was, slots, word * BITS)
      ensures WordOf(was, word, coe[word], (s: Slot) => s.coe)
    {
      forall j: nat | j < BITS
        ensures was[word * BITS + j].coe == Bit(coe[word], j)
      {
        assert At(word * BITS + j) == was[word * BITS + j];
        assert (word * BITS + j) / BITS == word && (word * BITS + j) % BITS == j;
      }
    }

    method ClearCoeWord(word: nat)
      requires word < WORDS && Coupled()
      modifies this`coe, this`slots
      ensures Coupled()
      ensures forall fd: nat :: fd < FD_MAX ==> slots[fd] == Unmarked(old(slots)[fd], fd / BITS == word)
    {
      coe := coe[word := 0];
      slots := seq(FD_MAX, fd requires 0 <= fd < FD_MAX => Unmarked(old(slots)[fd], fd / BITS == word));
      forall fd: nat | fd < FD_MAX
        ensures slots[fd] == At(fd)
      {
        assert old(slots)[fd] == old(At(fd));
        HighClear(0, 0, fd % BITS);
      }
    }

    /** The inner loop of closeOnExec: the coe bits of the word stay until its end. */
    method ExecWord(word: nat, ghost was: Slots, ghost gone: seq<File>)
      requires word < WORDS && Coupled() && TableOk(was) && Walked(ExecWalk, was, slots, word * BITS)
      requires detached == gone + DetachedBy(ExecWalk, was, word * BITS)
      modifies this`active, this`readyForLazy, this`refs, this`server, this`detached, this`slots
      ensures Coupled() && Executing(was, slots, word * BITS, word * BITS + BITS)
      ensures detached == gone + DetachedBy(ExecWalk, was, word * BITS + BITS)
    {
      ghost var w := coe[word];
      var mask: nat := coe[word];
      var fd := word * BITS;
      ghost var k := 0;
      ScanStarts(w);
      CoeWord(word, was);
      ExecStarts(was, slots, word * BITS);
      while mask != 0
        invariant fd == word * BITS + k && Scans(mask, w, k)
        invariant Coupled() && Executing(was, slots, word * BITS, fd)
        invariant detached == gone + DetachedBy(ExecWalk, was, fd)
        decreases mask
      {
        ScanMoves(mask, w, k);
        MarkedAt(was, word, w, k);
        ExecMarked(fd, mask % 2 == 1, was, word * BITS, gone);
        fd, mask, k := fd + 1, mask / 2, k + 1;
      }
      ExecScanPasses(was, slots, word, w, k);
    }

    /** One turn of that loop. */
    method ExecMarked(fd: nat, marked: bool, ghost was: Slots, ghost base: nat, ghost gone: seq<File>)
      requires base <= fd < FD_MAX && Coupled() && TableOk(was) && marked == was[fd].coe
      requires Executing(was, slots, base, fd)
      requires detached == gone + DetachedBy(ExecWalk, was, fd)
      modifies this`active, this`readyForLazy, this`refs, this`server, this`detached, this`slots
      ensures Coupled() && Executing(was, slots, base, fd + 1)
      ensures detached == gone + DetachedBy(ExecWalk, was, fd + 1)
    {
      ghost var now := slots;
      assert now[fd] == was[fd] == At(fd) && SlotOk(was[fd]);
      if marked {
        var file := refs[fd];
        if Has(readyForLazy, fd) {
          readyForLazy := ClrBit(readyForLazy, fd);
          server := server - {fd};
        }
        if file.Some? {
          detached := detached + [file.value];
        }
        refs := refs[fd := None];
        active := ClrBit(active, fd);
        slots := slots[fd := ExecutingSlot(was[fd], false, true)];
        Recouple(fd);
      }
      ExecStepped(was, now, slots, base, fd);
    }
  }
}
