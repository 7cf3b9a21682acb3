/** The descriptor table as a map from descriptor to file, over any run of calls. */
module FdTheorems {
  import opened Prelude
  import opened FdBits
  import opened FdTable

  // ------------------------------------------------- the calls on slots

  /** A call on the table; `given` of Alloc is the descriptor it gave, None if it was refused. */
  datatype Call =
    | Alloc(file: File, lowest: nat, given: Option<nat>)
    | Replace(file: File, fd: nat)
    | Get(fd: nat)
    | Free(fd: nat)
    | Close(fd: nat)
    | SetCoe(fd: nat, flag: bool)
    | OnExec
    | All
    | Fork
    | Exec

  /** c is the call req with its result filled in. */
  predicate Answers(req: Call, c: Call) {
    if req.Alloc? then c.Alloc? && c.file == req.file && c.lowest == req.lowest else c == req
  }

  /** The code leaves the table, or follows a null reference, or loses a lazy descriptor. */
  ghost predicate Hazard(slots: Slots, req: Call) {
    match req
    case Alloc(_, lowest, _) =>
      && lowest < FD_MAX && InGap(slots, lowest)
      && (NextWord(lowest) >= FD_MAX || slots[NextWord(lowest)].lazy)
    case Replace(_, fd) => fd == FD_MAX
    case Get(_) => false
    case Free(fd) => fd >= FD_MAX
    case Close(fd) => fd >= FD_MAX
    case SetCoe(fd, _) => fd >= FD_MAX
    case OnExec => false
    case All => false
    case Fork => false
    case Exec => !NoneDangles(slots, 0, FD_MAX)
  }

  /** The results a call may give. */
  ghost predicate Allowed(slots: Slots, c: Call) {
    && !Hazard(slots, c)
    && (c.Alloc? ==> AllocGives(slots, c.lowest, c.given))
  }

  ghost predicate AllocGives(slots: Slots, lowest: nat, given: Option<nat>) {
    if lowest >= FD_MAX then given == None
    else if InGap(slots, lowest) then given == Some(NextWord(lowest))
    else if given.Some? then LeastInactive(slots, lowest, given.value)
    else AllActive(slots, lowest, FD_MAX)
  }

  ghost function After(slots: Slots, c: Call): Slots
    requires Allowed(slots, c)
  {
    match c
    case Alloc(file, _, None) => slots
    case Alloc(file, _, Some(fd)) => slots[fd := Allocated(slots[fd], file)]
    case Replace(file, fd) => if fd < FD_MAX then slots[fd := Installed(file)] else slots
    case Get(fd) => if fd < FD_MAX then slots[fd := Got(slots[fd])] else slots
    case Free(fd) => slots[fd := Freed(slots[fd])]
    case Close(fd) => slots[fd := Closed(slots[fd])]
    case SetCoe(fd, flag) => Marked(slots, fd, flag)
    case OnExec => WalkAll(ExecWalk, slots)
    case All => WalkAll(CloseAllWalk, slots)
    case Fork => WalkAll(ForkWalk, slots)
    case Exec => WalkAll(ForkExecWalk, slots)
  }

  // ------------------------------------------------- the calls on the map

  /** What a user of the table sees: the open files and the close-on-exec marks. */
  datatype Model = Model(files: map<nat, File>, coe: set<nat>)

  ghost function Abs(slots: Slots): Model
    requires TableOk(slots)
  {
    Model(Files(slots), CloseOnExec(slots))
  }

  /**
   * The effect of a call on the map. Looking a file up may lose its close-on-exec mark; an
   * allocation gives the least free descriptor, or, with a free one below `lowest` in its
   * word and none from there to the end of the word, the first of the next word, free or not.
   */
  ghost predicate Spec(m: Model, c: Call, m': Model) {
    match c
    case Alloc(file, lowest, None) => m' == m && forall f: nat :: lowest <= f < FD_MAX ==> f in m.files
    case Alloc(file, lowest, Some(fd)) =>
      && (forall f: nat :: lowest <= f < fd ==> f in m.files)
      && (fd in m.files ==>
            && fd == NextWord(lowest)
            && exists f: nat :: lowest / BITS * BITS <= f < lowest && f !in m.files)
      && m' == Model(m.files[fd := file], m.coe - {fd})
    case Replace(file, fd) => m' == if fd < FD_MAX then Model(m.files[fd := file], m.coe - {fd}) else m
    case Get(fd) => m'.files == m.files && (m'.coe == m.coe || m'.coe == m.coe - {fd})
    case Free(fd) => m' == Model(m.files - {fd}, m.coe - {fd})
    case Close(fd) => m' == Model(m.files - {fd}, m.coe - {fd})
    case SetCoe(fd, flag) => m' == m.(coe := if flag && fd in m.files then m.coe + {fd} else m.coe - {fd})
    case OnExec => m' == Model(m.files - m.coe, {})
    case All => m' == Model(map[], {})
    case Fork => m' == m
    case Exec => m' == Model(m.files - m.coe, {})
  }

  // ------------------------------------------------- one call

  /** Changing one slot changes one entry of the map. */
  lemma OneSlot(slots: Slots, fd: nat, s: Slot)
    requires TableOk(slots) && fd < FD_MAX && SlotOk(s)
    ensures TableOk(slots[fd := s])
    ensures s.active ==> Files(slots[fd := s]) == Files(slots)[fd := FileOf(s).value]
    ensures !s.active ==> Files(slots[fd := s]) == Files(slots) - {fd}
    ensures CloseOnExec(slots[fd := s]) == if s.coe then CloseOnExec(slots) + {fd} else CloseOnExec(slots) - {fd}
  {
  }

  lemma AllocRefines(slots: Slots, c: Call)
    requires TableOk(slots) && Allowed(slots, c) && c.Alloc?
    ensures TableOk(After(slots, c)) && Spec(Abs(slots), c, Abs(After(slots, c)))
  {
    var files := Files(slots);
    if c.given.Some? {
      var fd := c.given.value;
      var s := Allocated(slots[fd], c.file);
      assert SlotOk(slots[fd]) && SlotOk(s);
      OneSlot(slots, fd, s);
      if fd in files {
        var f: nat :| c.lowest / BITS * BITS <= f < c.lowest && f < FD_MAX && !slots[f].active;
        assert f !in files;
      }
    }
  }

  lemma SlotCallRefines(slots: Slots, c: Call)
    requires TableOk(slots) && Allowed(slots, c)
    requires c.Replace? || c.Get? || c.Free? || c.Close? || c.SetCoe?
    ensures TableOk(After(slots, c)) && Spec(Abs(slots), c, Abs(After(slots, c)))
  {
    if c.fd < FD_MAX {
      assert SlotOk(slots[c.fd]);
      assert After(slots, c) == slots[c.fd := After(slots, c)[c.fd]];
      OneSlot(slots, c.fd, After(slots, c)[c.fd]);
    }
  }

  lemma WalkRefines(slots: Slots, c: Call)
    requires TableOk(slots) && Allowed(slots, c) && (c.OnExec? || c.All? || c.Fork? || c.Exec?)
    ensures TableOk(After(slots, c)) && Spec(Abs(slots), c, Abs(After(slots, c)))
  {
  }

  lemma CallRefines(slots: Slots, c: Call)
    requires TableOk(slots) && Allowed(slots, c)
    ensures TableOk(After(slots, c)) && Spec(Abs(slots), c, Abs(After(slots, c)))
  {
    if c.Alloc? {
      AllocRefines(slots, c);
    } else if c.OnExec? || c.All? || c.Fork? || c.Exec? {
      WalkRefines(slots, c);
    } else {
      SlotCallRefines(slots, c);
    }
  }

  // ------------------------------------------------- runs

  ghost predicate Run(first: Slots, calls: seq<Call>, last: Slots)
    decreases |calls|
  {
    if calls == [] then first == last
    else Allowed(first, calls[0]) && Run(After(first, calls[0]), calls[1..], last)
  }

  ghost predicate SpecRun(first: Model, calls: seq<Call>, last: Model)
    decreases |calls|
  {
    if calls == [] then first == last
    else exists next :: Spec(first, calls[0], next) && SpecRun(next, calls[1..], last)
  }

  /** Every run keeps the table's invariant and is a run of the map. */
  lemma {:induction false} RunRefines(first: Slots, calls: seq<Call>, last: Slots)
    requires TableOk(first) && Run(first, calls, last)
    ensures TableOk(last) && SpecRun(Abs(first), calls, Abs(last))
    decreases |calls|
  {
    if calls != [] {
      var next := After(first, calls[0]);
      CallRefines(first, calls[0]);
      RunRefines(next, calls[1..], last);
      assert Spec(Abs(first), calls[0], Abs(next)) && SpecRun(Abs(next), calls[1..], Abs(last));
    }
  }

  lemma {:induction false} RunExtend(first: Slots, calls: seq<Call>, last: Slots, c: Call)
    requires Run(first, calls, last) && Allowed(last, c)
    ensures Run(first, calls + [c], After(last, c))
    decreases |calls|
  {
    assert (calls + [c])[0] == if calls == [] then c else calls[0];
    if calls == [] {
      assert (calls + [c])[1..] == [];
    } else {
      assert (calls + [c])[1..] == calls[1..] + [c];
      RunExtend(After(first, calls[0]), calls[1..], last, c);
    }
  }

  // ------------------------------------------------- where files go

  /** The files a call detaches, in order. */
  ghost function Detaches(slots: Slots, c: Call): seq<File>
    requires Allowed(slots, c)
  {
    match c
    case Close(fd) => if slots[fd].active && slots[fd].ref.Some? then [slots[fd].ref.value] else []
    case OnExec => DetachedBy(ExecWalk, slots, FD_MAX)
    case All => DetachedBy(CloseAllWalk, slots, FD_MAX)
    case _ => []
  }

  ghost function RunDetaches(first: Slots, calls: seq<Call>): seq<File>
    decreases |calls|
  {
    if calls == [] || !Allowed(first, calls[0]) then []
    else Detaches(first, calls[0]) + RunDetaches(After(first, calls[0]), calls[1..])
  }

  lemma {:induction false} RunDetachesMore(first: Slots, calls: seq<Call>, last: Slots, c: Call)
    requires Run(first, calls, last) && Allowed(last, c)
    ensures RunDetaches(first, calls + [c]) == RunDetaches(first, calls) + Detaches(last, c)
    decreases |calls|
  {
    if calls == [] {
      assert (calls + [c])[1..] == [];
    } else {
      assert (calls + [c])[1..] == calls[1..] + [c];
      RunDetachesMore(After(first, calls[0]), calls[1..], last, c);
    }
  }

  lemma OneMoreCall(first: Slots, calls: seq<Call>, last: Slots, c: Call, gone: seq<File>)
    requires Run(first, calls, last) && TableOk(last) && Allowed(last, c)
    ensures Run(first, calls + [c], After(last, c)) && TableOk(After(last, c))
    ensures gone + RunDetaches(first, calls + [c]) == gone + RunDetaches(first, calls) + Detaches(last, c)
  {
    RunExtend(first, calls, last, c);
    RunDetachesMore(first, calls, last, c);
    CallRefines(last, c);
  }

  /** The descriptor holds this file by a live ref. */
  predicate Live(s: Slot, f: File) {
    s.active && s.ref == Some(f)
  }

  lemma WalkDetaches(k: Walk, slots: Slots, fd: nat, f: File)
    requires (k == CloseAllWalk || k == ExecWalk) && fd < FD_MAX && slots[fd].ref == Some(f) && DetachesAt(k, slots[fd])
    ensures f in DetachedBy(k, slots, FD_MAX)
  {
    var fds := DetachedExactly(k, slots, FD_MAX);
    var i :| 0 <= i < |fds| && fds[i] == fd;
    assert DetachedBy(k, slots, FD_MAX)[i] == f;
  }

  /**
   * A live file leaves a descriptor only by being detached, by being handed back to the caller of
   * freeFD or replaceFD, or by being overwritten by an allocation from inside a gap.
   */
  lemma FileLeavesOnlySo(slots: Slots, c: Call, fd: nat, f: File)
    requires TableOk(slots) && Allowed(slots, c) && fd < FD_MAX && Live(slots[fd], f)
    requires FileOf(After(slots, c)[fd]) != Some(f)
    ensures
      || f in Detaches(slots, c)
      || ((c.Free? || c.Replace?) && c.fd == fd)
      || (c.Alloc? && c.given == Some(fd) && InGap(slots, c.lowest))
  {
    assert SlotOk(slots[fd]);
    match c
    case OnExec => WalkDetaches(ExecWalk, slots, fd, f);
    case All => WalkDetaches(CloseAllWalk, slots, fd, f);
    case Exec => DanglesAt(slots, fd);
    case _ =>
  }

  /** A file that a call detaches was live in a descriptor that is closed by it. */
  lemma DetachedIsClosed(slots: Slots, c: Call, f: File) returns (fd: nat)
    requires TableOk(slots) && Allowed(slots, c) && f in Detaches(slots, c)
    ensures fd < FD_MAX && Live(slots[fd], f) && !After(slots, c)[fd].active
  {
    if c.Close? {
      fd := c.fd;
    } else {
      var k := if c.OnExec? then ExecWalk else CloseAllWalk;
      var fds := DetachedExactly(k, slots, FD_MAX);
      var i :| 0 <= i < |fds| && DetachedBy(k, slots, FD_MAX)[i] == f;
      fd := fds[i];
      assert fd in fds && SlotOk(slots[fd]);
    }
  }

  // ------------------------------------------------- the table itself

  /** One call on the table: unless the code goes astray there, it does what After says. */
  method PerformOne(t: Table, req: Call) returns (c: Call, ok: bool)
    requires t.Coupled() && TableOk(t.slots)
    modifies t
    ensures t.Coupled() && Answers(req, c)
    ensures ok <==> !Hazard(old(t.slots), req)
    ensures ok ==> Allowed(old(t.slots), c) && t.slots == After(old(t.slots), c)
    ensures ok ==> t.detached == old(t.detached) + Detaches(old(t.slots), c)
  {
    c := req;
    match req {
      case Alloc(file, lowest, _) => c, ok := PerformAlloc(t, file, lowest);
      case Replace(file, fd) => var r := t.ReplaceFD(file, fd); ok := !r.PastEnd?;
      case Get(fd) => var _ := t.GetFD(fd); ok := true;
      case Free(fd) => var r := t.FreeFD(fd); ok := r.Done?;
      case Close(fd) => ok := PerformClose(t, fd);
      case SetCoe(fd, flag) => var r := t.SetCOE(fd, flag); ok := r.Done?;
      case OnExec => t.CloseMarkedOnExec(); ok := true;
      case All => t.CloseAll(); ok := true;
      case Fork => var crashed := t.CopyFDs(false); ok := !crashed;
      case Exec => var crashed := t.CopyFDs(true); ok := !crashed;
    }
  }

  method PerformClose(t: Table, fd: nat) returns (ok: bool)
    requires t.Coupled() && TableOk(t.slots)
    modifies t
    ensures t.Coupled() && (ok <==> fd < FD_MAX)
    ensures ok ==> t.slots == old(t.slots)[fd := Closed(old(t.slots)[fd])]
    ensures ok ==> t.detached == old(t.detached) + Detaches(old(t.slots), Close(fd))
  {
    var r := t.CloseFD(fd);
    ok := r.Done?;
  }

  method PerformAlloc(t: Table, file: File, lowest: nat) returns (c: Call, ok: bool)
    requires t.Coupled() && TableOk(t.slots)
    modifies t
    ensures t.Coupled() && c.Alloc? && c.file == file && c.lowest == lowest
    ensures ok <==> !Hazard(old(t.slots), c)
    ensures ok ==> Allowed(old(t.slots), c) && t.slots == After(old(t.slots), c) && t.detached == old(t.detached)
  {
    var r := t.AllocFD(file, lowest);
    c := Alloc(file, lowest, if r.Fd? then Some(r.fd) else None);
    ok := !r.Overrun?;
    if r.Fd? {
      assert t.slots[r.fd] == t.At(r.fd) && SlotOk(old(t.slots)[r.fd]);
      ok := !Has(t.readyForLazy, r.fd);
    }
  }

  /**
   * Any sequence of calls on the table is a run of the map, up to the first call with which the
   * code goes astray.
   */
  method Perform(t: Table, reqs: seq<Call>) returns (calls: seq<Call>, ok: bool)
    requires t.Coupled() && TableOk(t.slots)
    modifies t
    ensures t.Coupled() && |calls| <= |reqs| && forall i :: 0 <= i < |calls| ==> Answers(reqs[i], calls[i])
    ensures ok ==> |calls| == |reqs| && Run(old(t.slots), calls, t.slots)
    ensures ok ==> TableOk(t.slots) && SpecRun(Abs(old(t.slots)), calls, Abs(t.slots))
    ensures ok ==> t.detached == old(t.detached) + RunDetaches(old(t.slots), calls)
    ensures !ok ==> |calls| < |reqs| && exists mid :: Run(old(t.slots), calls, mid) && Hazard(mid, reqs[|calls|])
  {
    calls, ok := [], true;
    while |calls| < |reqs|
      invariant ok && t.Coupled() && TableOk(t.slots) && |calls| <= |reqs|
      invariant forall i :: 0 <= i < |calls| ==> Answers(reqs[i], calls[i])
      invariant Run(old(t.slots), calls, t.slots)
      invariant t.detached == old(t.detached) + RunDetaches(old(t.slots), calls)
    {
      ghost var mid := t.slots;
      var c;
      c, ok := PerformOne(t, reqs[|calls|]);
      if !ok {
        return;
      }
      OneMoreCall(old(t.slots), calls, mid, c, old(t.detached));
      calls := calls + [c];
    }
    RunRefines(old(t.slots), calls, t.slots);
  }

  // ------------------------------------------------- allocation

  /**
   * allocFD from a lowest descriptor inside a gap takes the first descriptor of the next word
   * unexamined: it is the least inactive one exactly if it is in the table and inactive.
   */
  lemma AllocInGapExact(b: Bits, slots: Slots, lowest: nat)
    requires ActiveBits(b, slots) && lowest < FD_MAX && Gap(b, lowest)
    ensures InGap(slots, lowest)
    ensures LeastInactive(slots, lowest, NextWord(lowest)) <==>
            NextWord(lowest) < FD_MAX && !slots[NextWord(lowest)].active
  {
    GapToSlots(b, slots, lowest);
  }

  /**
   * On an active descriptor such an allocation replaces the open file, and keeps the invariant
   * exactly if it was not lazy.
   */
  lemma AllocOverActive(slots: Slots, fd: nat, file: File)
    requires TableOk(slots) && fd < FD_MAX && slots[fd].active
    ensures FileOf(Allocated(slots[fd], file)) == Some(file)
    ensures TableOk(slots[fd := Allocated(slots[fd], file)]) <==> !slots[fd].lazy
  {
    var s := Allocated(slots[fd], file);
    if slots[fd].lazy {
      assert SlotOk(slots[fd]);
      assert !SlotOk(slots[fd := s][fd]);
    }
  }

  // ------------------------------------------------- fork and exec

  /** forkAll leaves every open descriptor lazy, and the map as it was. */
  lemma ForkHandsOver(slots: Slots)
    requires TableOk(slots)
    ensures TableOk(WalkAll(ForkWalk, slots)) && Abs(WalkAll(ForkWalk, slots)) == Abs(slots)
    ensures forall fd: nat :: fd < FD_MAX && slots[fd].active ==> WalkAll(ForkWalk, slots)[fd].lazy
  {
  }

  /**
   * execAll, when no close-on-exec descriptor has a live ref, closes exactly the close-on-exec
   * descriptors and leaves the others lazy.
   */
  lemma ExecHandsOver(slots: Slots)
    requires TableOk(slots) && NoneDangles(slots, 0, FD_MAX)
    ensures TableOk(WalkAll(ForkExecWalk, slots))
    ensures Files(WalkAll(ForkExecWalk, slots)) == Files(slots) - CloseOnExec(slots)
    ensures forall fd: nat :: fd < FD_MAX && slots[fd].active && !slots[fd].coe ==>
              WalkAll(ForkExecWalk, slots)[fd].lazy
  {
  }

  /** A table whose only open descriptor is 3. */
  lemma OnlyThree(s: Slot) returns (slots: Slots)
    requires SlotOk(s) && s.active
    ensures TableOk(slots) && slots[3] == s && Files(slots) == map[3 := FileOf(s).value]
    ensures AsCommented(slots)
  {
    var empty: Slots := seq(FD_MAX, i => Slot(false, false, false, None, None));
    slots := empty[3 := s];
    forall fd: nat | fd < FD_MAX
      ensures SlotOk(slots[fd]) && (slots[fd].active <==> fd == 3)
    {
    }
  }

  /** A table in which execAll follows a null reference. */
  lemma ExecDangles() returns (slots: Slots)
    ensures TableOk(slots) && !NoneDangles(slots, 0, FD_MAX)
    ensures Files(slots) == map[3 := 7]
  {
    slots := OnlyThree(Slot(true, false, true, Some(7), None));
    DanglesAt(slots, 3);
  }

  /** A child that inherits what fork handed over has the parent's files. */
  lemma ForkThenInherit(slots: Slots, child: Slots)
    requires TableOk(slots) && TableOk(child)
    requires forall fd: nat :: fd < FD_MAX ==>
               var s := WalkAll(ForkWalk, slots)[fd];
               child[fd] == Slot(s.lazy, s.lazy, false, None, s.server)
    ensures Files(child) == Files(slots) && CloseOnExec(child) == {}
  {
  }

  // ------------------------------------------------- where the code departs from its comments

  /** Looking a descriptor up keeps its close-on-exec mark exactly if it was not both marked and lazy. */
  lemma LookupKeepsMarkExact(slots: Slots, fd: nat)
    requires TableOk(slots) && fd < FD_MAX
    ensures TableOk(After(slots, Get(fd)))
    ensures CloseOnExec(After(slots, Get(fd))) == CloseOnExec(slots) <==> !(slots[fd].lazy && slots[fd].coe)
  {
  }

  /** A table in which looking descriptor 3 up loses its mark. */
  lemma LookupLosesMark() returns (slots: Slots)
    ensures TableOk(slots) && CloseOnExec(slots) == {3} && CloseOnExec(After(slots, Get(3))) == {}
  {
    slots := OnlyThree(Slot(true, true, true, None, Some(7)));
  }

  /** The table's comment: an inactive descriptor has no coe bit, no lazy bit and no ref. */
  ghost predicate AsCommented(slots: Slots) {
    forall fd: nat :: fd < FD_MAX && !slots[fd].active ==> !slots[fd].coe && !slots[fd].lazy && slots[fd].ref == None
  }

  /** A close keeps what the comment says exactly if the descriptor had no live ref. */
  lemma CommentAfterCloseExact(slots: Slots, fd: nat)
    requires TableOk(slots) && AsCommented(slots) && fd < FD_MAX
    ensures AsCommented(After(slots, Close(fd))) <==> slots[fd].ref == None
  {
    var now := After(slots, Close(fd));
    if slots[fd].ref == None {
      forall f: nat | f < FD_MAX && !now[f].active
        ensures !now[f].coe && !now[f].lazy && now[f].ref == None
      {
        assert f != fd ==> now[f] == slots[f];
      }
    } else {
      assert !now[fd].active && now[fd].ref != None;
    }
  }

  /** A table in which closing descriptor 3 leaves a ref behind. */
  lemma CloseLeavesRef() returns (slots: Slots)
    ensures TableOk(slots) && AsCommented(slots) && !AsCommented(After(slots, Close(3)))
  {
    slots := OnlyThree(Slot(true, false, false, Some(7), None));
    CommentAfterCloseExact(slots, 3);
  }

  /** allocFD from 1 with descriptor 0 free and 1 to 64 open takes 64 and drops the file open there. */
  lemma AllocDropsFile() returns (slots: Slots)
    ensures TableOk(slots) && 64 in Files(slots) && Files(slots)[64] == 7
    ensures Allowed(slots, Alloc(8, 1, Some(64))) && After(slots, Alloc(8, 1, Some(64)))[64] == Installed(8)
  {
    var open := Installed(7);
    slots := seq(FD_MAX, i => if 1 <= i <= 64 then open else Slot(false, false, false, None, None));
    assert !slots[0].active;
    forall fd: nat | fd < FD_MAX
      ensures SlotOk(slots[fd]) && (slots[fd].active <==> 1 <= fd <= 64)
    {
    }
    assert NextWord(1) == 64 && 1 / BITS * BITS == 0;
  }
}
