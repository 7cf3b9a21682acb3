/**
 * Exclusion on one virtual processor: Linux environments (lib/lk/LinuxEnv.C) that enter,
 * take and drop locks (lib/lk/Locks.C) and are destroyed, for any number of threads under
 * any schedule. A thread runs only while none of its groups is barred; code between
 * Scheduler::Disable and Enable is one step.
 */
module VpExclusion {
  import opened Prelude
  import opened VpLocks

  type Tid = nat

  datatype Mode = SysCall | InterruptMode | SoftirqMode

  /** A lock held: plain, or irqsave with the hardirq count it saved. */
  datatype Lock = Plain | Irq(saved: int)

  datatype At =
    | Enter                 // entry: the groups are joined, the thread waits to run
    | Body                  // between calls
    | LockTested(bar: bool) // spin_lock: flags and count tested
    | LockBarred            // spin_lock: before the increment
    | Dropped               // spin_unlock: count decremented
    | DropTested(open: bool)// spin_unlock: flags and count tested
    | IrqDropped            // irqrestore: count and flags written, groups not yet
    | Finish                // destroy of an interrupt: joining softirq and syscall

  /** `nest` lists the locks the thread holds, innermost first. */
  datatype Thread = Thread(mode: Mode, at: At, groups: set<Group>, nest: seq<Lock>)

  /** The per-VP thread_info, survivor slot and barred groups. */
  datatype State = State(
    preempt: int, hardirq: int, inInterrupt: bool, irqDisabled: bool,
    survivor: Option<Tid>, barred: set<Group>, threads: map<Tid, Thread>)

  function All(): set<Group> {
    {Syscall, Softirq, Interrupt}
  }

  datatype Action =
    | CallSys(t: Tid)   // LinuxEnv(SysCall) or LinuxEnv(LongThread) on a new thread
    | CallInt(t: Tid)   // LinuxEnv(Interrupt) on a new thread
    | LockSpin(t: Tid)
    | LockIrq(t: Tid)
    | Unlock(t: Tid)    // the unlock that matches the innermost lock
    | Destroy(t: Tid)
    | Leave(t: Tid)     // destroy: after the softirqs, leave the groups
    | Step(t: Tid)

  predicate Runnable(s: State, t: Tid) {
    t in s.threads && s.threads[t].groups !! s.barred
  }

  predicate Enabled(s: State, a: Action) {
    match a
    case CallSys(t) => t !in s.threads
    case CallInt(t) => t !in s.threads
    case LockSpin(t) => Runnable(s, t) && s.threads[t].at == Body
    case LockIrq(t) => Runnable(s, t) && s.threads[t].at == Body
    case Unlock(t) => Runnable(s, t) && s.threads[t].at == Body && s.threads[t].nest != []
    case Destroy(t) =>
      && Runnable(s, t) && s.threads[t].at == Body && s.threads[t].nest == [] && s.threads[t].mode != SoftirqMode
    case Leave(t) =>
      && Runnable(s, t) && s.threads[t].at == Body && s.threads[t].nest == [] && s.threads[t].mode == SoftirqMode
    case Step(t) => Runnable(s, t) && s.threads[t].at != Body
  }

  // ------------------------------------------------- what a step changes

  /** The fields of thread_info and the barred groups. */
  datatype Info = Info(preempt: int, hardirq: int, inInterrupt: bool, irqDisabled: bool, barred: set<Group>)

  function InfoOf(s: State): Info {
    Info(s.preempt, s.hardirq, s.inInterrupt, s.irqDisabled, s.barred)
  }

  /** spin_lock_irqsave, up to taking the lock word. */
  function ThreadAfterIrq(th: Thread, v: Info): Thread {
    var bar := !v.irqDisabled && !v.inInterrupt;
    th.(nest := [Irq(v.hardirq)] + th.nest,
        groups := if bar then th.groups - {Interrupt, Syscall} else th.groups)
  }

  function InfoAfterIrq(v: Info): Info {
    var bar := !v.irqDisabled && !v.inInterrupt;
    Info(v.preempt + 1, v.hardirq + 1, v.inInterrupt, true, if bar then v.barred + {Interrupt, Syscall} else v.barred)
  }

  /** The unlock's writes of count and flags. */
  function InfoAfterUnlock(v: Info, l: Lock): Info {
    match l
    case Plain => v.(preempt := v.preempt - 1)
    case Irq(saved) => v.(preempt := v.preempt - 1, hardirq := saved, irqDisabled := v.irqDisabled && saved != 0)
  }

  /** The groups an irqrestore reopens. */
  function Reopens(v: Info): set<Group> {
    if v.inInterrupt then {} else
    (if v.irqDisabled then {} else {Interrupt}) + (if v.preempt == 0 then {Syscall} else {})
  }

  function ThreadAfterStep(th: Thread, v: Info): Thread {
    match th.at
    case Enter => th.(at := Body, groups := if th.mode == InterruptMode then {} else th.groups)
    case LockTested(bar) => th.(at := LockBarred, groups := if bar then th.groups - {Syscall} else th.groups)
    case LockBarred => th.(at := Body, nest := [Plain] + th.nest)
    case Dropped => th.(at := DropTested(!v.inInterrupt && v.preempt == 0))
    case DropTested(open) => th.(at := Body, groups := if open then th.groups + {Syscall} else th.groups)
    case IrqDropped => th.(at := Body, groups := th.groups + Reopens(v))
    case _ => th.(at := Body, mode := SoftirqMode)
  }

  function InfoAfterStep(th: Thread, v: Info): Info {
    match th.at
    case Enter => if th.mode == InterruptMode then v.(inInterrupt := true, barred := v.barred + {Interrupt}) else v
    case LockTested(bar) => if bar then v.(barred := v.barred + {Syscall}) else v
    case LockBarred => v.(preempt := v.preempt + 1)
    case DropTested(open) => if open then v.(barred := v.barred - {Syscall}) else v
    case IrqDropped => v.(barred := v.barred - Reopens(v))
    case _ => v
  }

  /** The running thread after an action that it survives, other than the end of an interrupt. */
  function ThreadAfter(a: Action, th: Thread, v: Info): Thread {
    match a
    case LockSpin(_) => th.(at := LockTested(!v.inInterrupt && v.preempt == 0))
    case LockIrq(_) => ThreadAfterIrq(th, v)
    case Unlock(_) =>
      if th.nest == [] then th
      else th.(nest := th.nest[1..], at := if th.nest[0].Plain? then Dropped else IrqDropped)
    case Destroy(_) => th.(mode := SoftirqMode)
    case _ => ThreadAfterStep(th, v)
  }

  function InfoAfter(a: Action, th: Thread, v: Info): Info {
    match a
    case LockIrq(_) => InfoAfterIrq(v)
    case Unlock(_) => if th.nest == [] then v else InfoAfterUnlock(v, th.nest[0])
    case Step(_) => InfoAfterStep(th, v)
    case _ => v
  }

  function Update(s: State, threads: map<Tid, Thread>, v: Info): State {
    State(v.preempt, v.hardirq, v.inInterrupt, v.irqDisabled, s.survivor, v.barred, threads)
  }

  /** The end of an interrupt: one thread at a time goes on to the softirqs. */
  function EndInterrupt(s: State, t: Tid): State
    requires t in s.threads
  {
    var v := InfoOf(s).(inInterrupt := false, barred := s.barred - {Interrupt});
    if s.survivor != None then Update(s, s.threads - {t}, v)
    else Update(s, s.threads[t := s.threads[t].(at := Finish, groups := All())], v).(survivor := Some(t))
  }

  function Apply(s: State, a: Action): State
    requires Enabled(s, a)
  {
    if a.CallSys? then s.(threads := s.threads[a.t := Thread(SysCall, Enter, All(), [])])
    else if a.CallInt? then s.(threads := s.threads[a.t := Thread(InterruptMode, Enter, {Interrupt}, [])])
    else if a.Leave? then s.(threads := s.threads - {a.t})
    else if a.Destroy? && s.threads[a.t].mode == InterruptMode then EndInterrupt(s, a.t)
    else
      var th, v := s.threads[a.t], InfoOf(s);
      Update(s, s.threads[a.t := ThreadAfter(a, th, v)], InfoAfter(a, th, v)).(
        survivor := if th.at == Finish && s.survivor == Some(a.t) then None else s.survivor)
  }

  ghost predicate Init(s: State) {
    s == State(0, 0, false, false, None, {}, map[])
  }

  ghost predicate Run(first: State, actions: seq<Action>, last: State)
    decreases |actions|
  {
    if actions == [] then first == last
    else Enabled(first, actions[0]) && Run(Apply(first, actions[0]), actions[1..], last)
  }

  ghost predicate Reachable(s: State) {
    exists first, actions :: Init(first) && Run(first, actions, s)
  }
}
