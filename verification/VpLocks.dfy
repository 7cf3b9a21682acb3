/**
 * The spin-lock layer of lib/lk/Locks.C on one virtual processor: the packed preempt count,
 * the flag bits, the thread groups of the running thread and the groups barred by the
 * scheduler. The lock words themselves are not modelled.
 */
module VpLocks {
  datatype Group = Syscall | Softirq | Interrupt

  // preempt_count() packs three counters: preempt in bits 0-7, softirq in bits 8-15,
  // hardirq in bits 16-23.
  const FIELD := 256
  const HARDIRQ_OFFSET := 65536

  /** preempt_count() & PREEMPT_MASK */
  function Preempt(count: int): (r: int) {
    count % FIELD
  }

  /** softirq_count(), shifted down */
  function SoftLevel(count: int): (r: int) {
    count / FIELD % FIELD
  }

  /** hardirq_count(), shifted down */
  function HardLevel(count: int): (r: int) {
    count / HARDIRQ_OFFSET % FIELD
  }

  /** hardirq_count(): the field in place, as it is saved in `flags`. */
  function HardBits(count: int): (r: int) {
    HardLevel(count) * HARDIRQ_OFFSET
  }

  /** What the calls read and write: `groups` are those of the running thread. */
  datatype Env = Env(
    count: int, inInterrupt: bool, irqDisabled: bool,
    barred: set<Group>, groups: set<Group>, interruptMode: bool)

  // ------------------------------------------------- the calls on values

  /** Leave the groups and bar them. */
  function Bar(v: Env, gs: set<Group>): Env {
    v.(barred := v.barred + gs, groups := v.groups - gs)
  }

  /** Unbar the groups and join them. */
  function Unbar(v: Env, gs: set<Group>): Env {
    v.(barred := v.barred - gs, groups := v.groups + gs)
  }

  function SpinLocked(v: Env): Env {
    var v := if !v.inInterrupt && Preempt(v.count) == 0 then Bar(v, {Syscall}) else v;
    v.(count := v.count + 1)
  }

  function SpinUnlocked(v: Env): Env {
    var v := v.(count := v.count - 1);
    if !v.inInterrupt && Preempt(v.count) == 0 then Unbar(v, {Syscall}) else v
  }

  function IrqLocked(v: Env): Env {
    var v := if !v.irqDisabled && !v.inInterrupt then Bar(v, {Interrupt, Syscall}) else v;
    v.(irqDisabled := true, count := v.count + HARDIRQ_OFFSET + 1)
  }

  /** The group changes at the end of both irq unlocks. */
  function Reopened(v: Env, interrupts: bool): Env {
    var v := if interrupts then Unbar(v, {Interrupt}) else v;
    if Preempt(v.count) == 0 then Unbar(v, {Syscall}) else v
  }

  function IrqRestored(v: Env, flags: int): Env {
    var v := v.(count := flags + (v.count - HardBits(v.count)) - 1,
                irqDisabled := v.irqDisabled && flags != 0);
    if v.inInterrupt then v else Reopened(v, !v.irqDisabled)
  }

  function IrqUnlocked(v: Env): Env {
    var v := v.(count := v.count % HARDIRQ_OFFSET - 1, irqDisabled := false);
    if v.inInterrupt then v else Reopened(v, HardLevel(v.count) == 0)
  }

  /** The count and flag conditions of LinuxEnv::assertClean. */
  predicate Clean(v: Env) {
    && (HardLevel(v.count) == 0 || v.irqDisabled)
    && (v.inInterrupt ==> v.interruptMode)
    && (v.interruptMode ==> Interrupt in v.barred)
    && (HardLevel(v.count) == 0 || Interrupt in v.barred)
    && (!v.interruptMode ==>
          && (SoftLevel(v.count) != 0 ==> Softirq in v.barred && Softirq !in v.groups)
          && (Preempt(v.count) != 0 ==> Syscall in v.barred && Syscall !in v.groups))
  }

  // ------------------------------------------------- well-nested programs

  /** A well-nested sequence of lock and unlock calls. */
  datatype Prog = Skip | Seq(first: Prog, second: Prog) | Spin(body: Prog) | IrqSave(body: Prog)

  /** The deepest lock nesting, and the deepest irqsave nesting. */
  function Depth(p: Prog): nat {
    match p
    case Skip => 0
    case Seq(a, b) => if Depth(a) < Depth(b) then Depth(b) else Depth(a)
    case Spin(b) => Depth(b) + 1
    case IrqSave(b) => Depth(b) + 1
  }

  function IrqDepth(p: Prog): nat {
    match p
    case Skip => 0
    case Seq(a, b) => if IrqDepth(a) < IrqDepth(b) then IrqDepth(b) else IrqDepth(a)
    case Spin(b) => IrqDepth(b)
    case IrqSave(b) => IrqDepth(b) + 1
  }

  /** The nesting stays inside the bit fields. */
  predicate Fits(v: Env, p: Prog) {
    && 0 <= v.count
    && Preempt(v.count) + Depth(p) < FIELD
    && HardLevel(v.count) + IrqDepth(p) < FIELD
  }

  function Exec(v: Env, p: Prog): Env
    decreases p
  {
    match p
    case Skip => v
    case Seq(a, b) => Exec(Exec(v, a), b)
    case Spin(b) => SpinUnlocked(Exec(SpinLocked(v), b))
    case IrqSave(b) => IrqRestored(Exec(IrqLocked(v), b), HardBits(v.count))
  }

  /** Every state between two calls, and the last one. */
  function Points(v: Env, p: Prog): seq<Env>
    decreases p
  {
    match p
    case Skip => [v]
    case Seq(a, b) => Points(v, a) + Points(Exec(v, a), b)
    case Spin(b) => [v] + Points(SpinLocked(v), b) + [Exec(v, p)]
    case IrqSave(b) => [v] + Points(IrqLocked(v), b) + [Exec(v, p)]
  }

  /**
   * Counts, flags, bars and groups agree: outside an interrupt the syscall group is barred
   * exactly while the preempt field is non-zero and the interrupt group exactly while
   * interrupts are disabled, and the thread is in the groups it does not bar.
   */
  predicate Agrees(v: Env) {
    && (v.inInterrupt <==> v.interruptMode)
    && (v.irqDisabled <==> HardLevel(v.count) != 0)
    && (v.inInterrupt ==> Interrupt in v.barred)
    && (!v.inInterrupt ==>
          && (SoftLevel(v.count) != 0 ==> Softirq in v.barred && Softirq !in v.groups)
          && (Preempt(v.count) != 0 <==> Syscall in v.barred)
          && (Preempt(v.count) != 0 <==> Syscall !in v.groups)
          && (v.irqDisabled <==> Interrupt in v.barred)
          && (v.irqDisabled ==> Preempt(v.count) != 0)
          && (!v.irqDisabled ==> Interrupt in v.groups))
  }

  // ------------------------------------------------- the fields of the packed count

  /** Adding one to a preempt field with room leaves the other fields alone. */
  lemma PreemptUp(count: int)
    requires 0 <= count && Preempt(count) + 1 < FIELD
    ensures Preempt(count + 1) == Preempt(count) + 1
    ensures SoftLevel(count + 1) == SoftLevel(count) && HardLevel(count + 1) == HardLevel(count)
  {
  }

  lemma FieldUp(x: int)
    ensures (x + 1) % FIELD == if x % FIELD + 1 < FIELD then x % FIELD + 1 else 0
  {
  }

  /** One hardirq level more is one more above the lower fields, which stay. */
  lemma OffsetMoves(c: int)
    requires 0 <= c
    ensures Preempt(c + HARDIRQ_OFFSET) == Preempt(c) && SoftLevel(c + HARDIRQ_OFFSET) == SoftLevel(c)
    ensures (c + HARDIRQ_OFFSET) / HARDIRQ_OFFSET == c / HARDIRQ_OFFSET + 1
  {
    assert (c + HARDIRQ_OFFSET) / FIELD == c / FIELD + 256;
  }

  /** The same for one hardirq level and one preempt level together. */
  lemma HardUp(count: int)
    requires 0 <= count && Preempt(count) + 1 < FIELD && HardLevel(count) + 1 < FIELD
    ensures Preempt(count + HARDIRQ_OFFSET + 1) == Preempt(count) + 1
    ensures SoftLevel(count + HARDIRQ_OFFSET + 1) == SoftLevel(count)
    ensures HardLevel(count + HARDIRQ_OFFSET + 1) == HardLevel(count) + 1
  {
    OffsetMoves(count);
    assert HardLevel(count + HARDIRQ_OFFSET) == HardLevel(count) + 1 by {
      FieldUp(count / HARDIRQ_OFFSET);
    }
    PreemptUp(count + HARDIRQ_OFFSET);
  }

  lemma PreemptDown(count: int)
    requires 0 < count && Preempt(count) > 0
    ensures Preempt(count - 1) == Preempt(count) - 1
    ensures SoftLevel(count - 1) == SoftLevel(count) && HardLevel(count - 1) == HardLevel(count)
  {
    PreemptUp(count - 1);
  }

  /** Taking one hardirq level and one preempt level off. */
  lemma HardDown(count: int)
    requires 0 < count && Preempt(count) > 0 && HardLevel(count) > 0
    ensures 0 <= count - HARDIRQ_OFFSET - 1
    ensures Preempt(count - HARDIRQ_OFFSET - 1) == Preempt(count) - 1
    ensures SoftLevel(count - HARDIRQ_OFFSET - 1) == SoftLevel(count)
    ensures HardLevel(count - HARDIRQ_OFFSET - 1) == HardLevel(count) - 1
  {
    OffsetMoves(count - HARDIRQ_OFFSET);
    assert HardLevel(count - HARDIRQ_OFFSET) == HardLevel(count) - 1 by {
      FieldUp((count - HARDIRQ_OFFSET) / HARDIRQ_OFFSET);
    }
    PreemptDown(count - HARDIRQ_OFFSET);
  }

  /** Clearing the hardirq field of a count that has no bits above it. */
  lemma HardCleared(count: int)
    requires 0 < count && Preempt(count) > 0
    ensures var c := count % HARDIRQ_OFFSET;
            0 < c && Preempt(c) == Preempt(count) && SoftLevel(c) == SoftLevel(count) && HardLevel(c) == 0
  {
    var c := count % HARDIRQ_OFFSET;
    assert c % FIELD == count % FIELD;
    assert count / FIELD == 256 * (count / HARDIRQ_OFFSET) + c / FIELD;
    assert c / FIELD < 256;
  }

  // ------------------------------------------------- what each call does

  /** There is room for one more level in both fields. */
  predicate HasRoom(count: int) {
    0 <= count && Preempt(count) + 1 < FIELD && HardLevel(count) + 1 < FIELD
  }

  /**
   * From v to w the levels change by `preempt` and `hard`, the state agrees, and nothing else
   * changes: in an interrupt no group or bar does.
   */
  predicate Shifts(v: Env, w: Env, preempt: int, hard: int) {
    && Agrees(w)
    && Preempt(w.count) == Preempt(v.count) + preempt
    && HardLevel(w.count) == HardLevel(v.count) + hard
    && SoftLevel(w.count) == SoftLevel(v.count)
    && w.inInterrupt == v.inInterrupt
    && (Softirq in w.barred <==> Softirq in v.barred) && (Softirq in w.groups <==> Softirq in v.groups)
    && (v.inInterrupt ==> w.barred == v.barred && w.groups == v.groups)
  }

  lemma SpinLockShifts(v: Env)
    requires Agrees(v) && HasRoom(v.count)
    ensures Shifts(v, SpinLocked(v), 1, 0)
  {
    PreemptUp(v.count);
  }

  /** The plain lock being dropped is not the one that disabled interrupts. */
  lemma SpinUnlockShifts(v: Env)
    requires Agrees(v) && 0 < v.count && Preempt(v.count) > 0
    requires v.irqDisabled && !v.inInterrupt ==> Preempt(v.count) > 1
    ensures Shifts(v, SpinUnlocked(v), -1, 0)
  {
    PreemptDown(v.count);
  }

  lemma IrqLockShifts(v: Env)
    requires Agrees(v) && HasRoom(v.count)
    ensures Shifts(v, IrqLocked(v), 1, 1)
  {
    HardUp(v.count);
  }

  lemma IrqRestoreShifts(v: Env)
    requires Agrees(v) && 0 < v.count && Preempt(v.count) > 0 && HardLevel(v.count) > 0
    requires HardLevel(v.count) > 1 && !v.inInterrupt ==> Preempt(v.count) > 1
    ensures Shifts(v, IrqRestored(v, HardBits(v.count) - HARDIRQ_OFFSET), -1, -1)
  {
    HardDown(v.count);
  }

  lemma IrqUnlockShifts(v: Env)
    requires Agrees(v) && 0 < v.count && Preempt(v.count) > 0 && v.irqDisabled
    ensures Shifts(v, IrqUnlocked(v), -1, -HardLevel(v.count))
  {
    HardCleared(v.count);
    PreemptDown(v.count % HARDIRQ_OFFSET);
  }

  // ------------------------------------------------- each pair of calls

  lemma SpinPair(v: Env)
    requires Agrees(v) && 0 <= v.count && Preempt(v.count) + 1 < FIELD
    ensures Agrees(SpinLocked(v)) && SpinUnlocked(SpinLocked(v)) == v
  {
  }

  lemma IrqPair(v: Env)
    requires Agrees(v) && 0 <= v.count && Preempt(v.count) + 1 < FIELD && HardLevel(v.count) + 1 < FIELD
    ensures Agrees(IrqLocked(v)) && IrqRestored(IrqLocked(v), HardBits(v.count)) == v
  {
    HardUp(v.count);
    var u := IrqLocked(v);
    assert HardBits(u.count) == HardBits(v.count) + HARDIRQ_OFFSET;
    var w := IrqRestored(u, HardBits(v.count));
    assert w.count == v.count;
    assert w.barred == v.barred && w.groups == v.groups;
  }

  lemma AgreesIsClean(v: Env)
    requires Agrees(v)
    ensures Clean(v)
  {
  }

  lemma SpinRoom(v: Env, body: Prog)
    requires Fits(v, Spin(body))
    ensures Preempt(v.count) + 1 < FIELD && Fits(SpinLocked(v), body)
  {
    PreemptUp(v.count);
  }

  lemma IrqRoom(v: Env, body: Prog)
    requires Fits(v, IrqSave(body))
    ensures Preempt(v.count) + 1 < FIELD && HardLevel(v.count) + 1 < FIELD && Fits(IrqLocked(v), body)
  {
    HardUp(v.count);
  }

  // ------------------------------------------------- what it guarantees

  /**
   * Every well-nested program within the bit fields restores count, flags, bars and groups
   * exactly.
   */
  lemma {:induction false} NestingRestores(v: Env, p: Prog)
    requires Agrees(v) && Fits(v, p)
    ensures Exec(v, p) == v
    decreases p
  {
    match p
    case Skip =>
    case Seq(a, b) =>
      NestingRestores(v, a);
      NestingRestores(v, b);
    case Spin(b) =>
      SpinRoom(v, b);
      SpinPair(v);
      NestingRestores(SpinLocked(v), b);
    case IrqSave(b) =>
      IrqRoom(v, b);
      IrqPair(v);
      NestingRestores(IrqLocked(v), b);
  }

  /** At every point in between they agree, so assertClean passes. */
  lemma {:induction false} CleanThroughout(v: Env, p: Prog, u: Env)
    requires Agrees(v) && Fits(v, p) && u in Points(v, p)
    ensures Agrees(u) && Clean(u)
    decreases p
  {
    NestingRestores(v, p);
    AgreesIsClean(v);
    if u != v {
      match p
      case Seq(a, b) =>
        NestingRestores(v, a);
        CleanThroughout(v, if u in Points(v, a) then a else b, u);
      case Spin(b) =>
        SpinRoom(v, b);
        SpinPair(v);
        CleanThroughout(SpinLocked(v), b, u);
      case IrqSave(b) =>
        IrqRoom(v, b);
        IrqPair(v);
        CleanThroughout(IrqLocked(v), b, u);
    }
  }

  /** Interrupt mode with interrupts disabled and without its flag. */
  predicate Flagless(v: Env) {
    && v.interruptMode && !v.inInterrupt && Interrupt in v.barred
    && v.irqDisabled && HardLevel(v.count) != 0
    && (Preempt(v.count) == 0 ==> Syscall !in v.barred && Syscall in v.groups)
  }

  lemma PairAgrees(v: Env, u: Env, w: Env)
    requires v.inInterrupt == v.interruptMode && !Agrees(v)
    requires u == IrqLocked(v) && w == IrqRestored(u, HardBits(v.count))
    requires Preempt(u.count) == Preempt(v.count) + 1 && HardLevel(u.count) == HardLevel(v.count) + 1
    ensures !(w == v && Clean(v) && Clean(u))
  {
  }

  lemma PairFlagless(v: Env, u: Env, w: Env)
    requires v.inInterrupt != v.interruptMode
    requires u == IrqLocked(v) && w == IrqRestored(u, HardBits(v.count)) && w.count == v.count
    requires Preempt(u.count) == Preempt(v.count) + 1 && HardLevel(u.count) == HardLevel(v.count) + 1
    ensures (w == v && Clean(v) && Clean(u)) <==> Flagless(v)
  {
    if Flagless(v) {
      assert w.barred == v.barred && w.groups == v.groups;
    }
  }

  /**
   * Agreement is also necessary: from any state with room in the fields, an irqsave pair
   * passes assertClean before, inside and after, and restores the state, exactly when
   * the state agrees, or is one that interrupt mode without its flag allows.
   */
  lemma IrqPairNeedsAgreement(v: Env)
    requires 0 <= v.count && Preempt(v.count) + 1 < FIELD && HardLevel(v.count) + 1 < FIELD
    ensures (Exec(v, IrqSave(Skip)) == v && Clean(v) && Clean(IrqLocked(v))) <==> Agrees(v) || Flagless(v)
  {
    var u := IrqLocked(v);
    var w := IrqRestored(u, HardBits(v.count));
    assert Exec(v, IrqSave(Skip)) == w;
    HardUp(v.count);
    assert HardBits(u.count) == HardBits(v.count) + HARDIRQ_OFFSET;
    if Agrees(v) {
      IrqPair(v);
      AgreesIsClean(v);
      AgreesIsClean(u);
    } else if v.inInterrupt == v.interruptMode {
      PairAgrees(v, u, w);
    } else {
      PairFlagless(v, u, w);
    }
  }

  /**
   * __local_irq_disable leaves the interrupt group and bars it, and touches neither flag nor
   * count; its caller may set the flag and may raise the hardirq field. An irqsave pair then
   * restores the state exactly if the caller does both, and the state inside is clean exactly
   * if it does not set the flag. Without a raised field the pair leaves interrupts enabled.
   */
  lemma IrqSaveAfterDisable(flag: bool, raised: bool)
    ensures var count := if raised then HARDIRQ_OFFSET else 0;
            var entered := Env(0, false, false, {}, {Syscall, Softirq, Interrupt}, false);
            var v := Bar(entered, {Interrupt}).(irqDisabled := flag, count := count);
            var w := Exec(v, IrqSave(Skip));
            && (Clean(v) <==> raised ==> flag)
            && (Clean(IrqLocked(v)) <==> !flag)
            && (w == v <==> raised && flag)
            && (!raised ==> !w.irqDisabled && w.barred == {})
  {
    HardUp(0);
    HardUp(HARDIRQ_OFFSET);
  }

  /**
   * spin_unlock_irq enables interrupts whatever they were: the spin_lock_irq pair restores an
   * agreeing state exactly when interrupts were enabled on entry.
   */
  lemma IrqUnlockExact(v: Env)
    requires Agrees(v) && 0 <= v.count && Preempt(v.count) + 1 < FIELD && HardLevel(v.count) + 1 < FIELD
    requires v.count < FIELD * HARDIRQ_OFFSET
    ensures IrqUnlocked(IrqLocked(v)) == v <==> !v.irqDisabled
  {
  }

  // ------------------------------------------------- the calls on a virtual processor

  class Vp {
    var count: int
    var inInterrupt: bool
    var irqDisabled: bool
    var barred: set<Group>
    var groups: set<Group>
    const interruptMode: bool

    /** As a Linux environment begins: a system call, or an interrupt that bars its group. */
    constructor (interrupt: bool)
      ensures Agrees(View()) && count == 0 && inInterrupt == interrupt
    {
      interruptMode := interrupt;
      count, inInterrupt, irqDisabled := 0, interrupt, false;
      barred := if interrupt then {Interrupt} else {};
      groups := if interrupt then {} else {Syscall, Softirq, Interrupt};
    }

    function View(): Env
      reads this
    {
      Env(count, inInterrupt, irqDisabled, barred, groups, interruptMode)
    }

    method BarGroup(g: Group)
      modifies this`barred, this`groups
      ensures View() == Bar(old(View()), {g})
    {
      groups := groups - {g};
      barred := barred + {g};
    }

    method UnbarGroup(g: Group)
      modifies this`barred, this`groups
      ensures View() == Unbar(old(View()), {g})
    {
      barred := barred - {g};
      groups := groups + {g};
    }

    method SpinLock()
      modifies this
      ensures View() == SpinLocked(old(View()))
      ensures old(Agrees(View()) && HasRoom(count)) ==> Shifts(old(View()), View(), 1, 0)
    {
      ghost var v := View();
      if !inInterrupt && Preempt(count) == 0 {
        BarGroup(Syscall);
      }
      count := count + 1;
      if Agrees(v) && HasRoom(v.count) {
        SpinLockShifts(v);
      }
    }

    method SpinUnlock()
      requires Preempt(count) != 0
      modifies this
      ensures View() == SpinUnlocked(old(View()))
      ensures old(Agrees(View()) && 0 < count && (irqDisabled && !inInterrupt ==> Preempt(count) > 1)) ==>
                Shifts(old(View()), View(), -1, 0)
    {
      ghost var v := View();
      count := count - 1;
      if !inInterrupt && Preempt(count) == 0 {
        UnbarGroup(Syscall);
      }
      if Agrees(v) && 0 < v.count && (v.irqDisabled && !v.inInterrupt ==> Preempt(v.count) > 1) {
        SpinUnlockShifts(v);
      }
    }

    method SpinLockIrq()
      modifies this
      ensures View() == IrqLocked(old(View()))
      ensures old(Agrees(View()) && HasRoom(count)) ==> Shifts(old(View()), View(), 1, 1)
    {
      ghost var v := View();
      if !irqDisabled && !inInterrupt {
        BarGroup(Interrupt);
        BarGroup(Syscall);
      }
      irqDisabled := true;
      count := count + HARDIRQ_OFFSET + 1;
      if Agrees(v) && HasRoom(v.count) {
        IrqLockShifts(v);
      }
    }

    method SpinLockIrqSave() returns (flags: int)
      modifies this
      ensures View() == IrqLocked(old(View())) && flags == HardBits(old(count))
      ensures old(Agrees(View()) && HasRoom(count)) ==>
                Shifts(old(View()), View(), 1, 1) && flags == HardBits(count) - HARDIRQ_OFFSET
    {
      ghost var v := View();
      flags := HardBits(count);
      if !irqDisabled && !inInterrupt {
        BarGroup(Interrupt);
        BarGroup(Syscall);
      }
      irqDisabled := true;
      count := count + HARDIRQ_OFFSET + 1;
      if Agrees(v) && HasRoom(v.count) {
        IrqLockShifts(v);
      }
    }

    method SpinUnlockIrqRestore(flags: int)
      requires Preempt(count) != 0
      modifies this
      ensures View() == IrqRestored(old(View()), flags)
      ensures old(Restorable(View(), flags)) ==> Shifts(old(View()), View(), -1, -1)
    {
      ghost var v := View();
      count := flags + (count - HardBits(count));
      count := count - 1;
      if flags == 0 {
        irqDisabled := false;
      }
      if !inInterrupt {
        if !irqDisabled {
          UnbarGroup(Interrupt);
        }
        if Preempt(count) == 0 {
          UnbarGroup(Syscall);
        }
      }
      if Restorable(v, flags) {
        IrqRestoreShifts(v);
      }
    }

    method SpinUnlockIrq()
      modifies this
      ensures View() == IrqUnlocked(old(View()))
      ensures old(Agrees(View()) && 0 < count && Preempt(count) > 0 && irqDisabled) ==>
                Shifts(old(View()), View(), -1, -HardLevel(old(count)))
    {
      ghost var v := View();
      count := count % HARDIRQ_OFFSET;
      count := count - 1;
      irqDisabled := false;
      if !inInterrupt && (HardLevel(count) == 0 || Preempt(count) == 0) {
        if HardLevel(count) == 0 {
          UnbarGroup(Interrupt);
        }
        if Preempt(count) == 0 {
          UnbarGroup(Syscall);
        }
      }
      if Agrees(v) && 0 < v.count && Preempt(v.count) > 0 && v.irqDisabled {
        IrqUnlockShifts(v);
      }
    }

    /** Running a well-nested program leaves the virtual processor exactly as it was. */
    method Execute(p: Prog)
      requires Agrees(View()) && Fits(View(), p)
      modifies this
      ensures View() == old(View())
      decreases p
    {
      ghost var v := View();
      match p
      case Skip =>
      case Seq(a, b) =>
        Execute(a);
        Execute(b);
      case Spin(body) =>
        SpinRoom(v, body);
        SpinPair(v);
        PreemptUp(v.count);
        SpinLock();
        Execute(body);
        SpinUnlock();
      case IrqSave(body) =>
        IrqRoom(v, body);
        IrqPair(v);
        HardUp(v.count);
        var flags := SpinLockIrqSave();
        Execute(body);
        SpinUnlockIrqRestore(flags);
    }
  }

  /** The flags are those of the irqsave lock being dropped, and it is not the last lock if it is nested. */
  predicate Restorable(v: Env, flags: int) {
    && Agrees(v) && 0 < v.count && Preempt(v.count) > 0 && HardLevel(v.count) > 0
    && flags == HardBits(v.count) - HARDIRQ_OFFSET
    && (HardLevel(v.count) > 1 && !v.inInterrupt ==> Preempt(v.count) > 1)
  }
}
