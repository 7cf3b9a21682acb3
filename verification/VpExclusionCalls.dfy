/** What the calls on a virtual processor come to, whatever runs meanwhile. */
module VpExclusionCalls {
  import opened Prelude
  import opened VpLocks
  import opened VpExclusion
  import opened VpExclusionProof
  import opened VpExclusionTheorems

  // ------------------------------------------------- entry

  lemma {:induction false} ModeStays(first: State, actions: seq<Action>, last: State, t: Tid)
    requires Run(first, actions, last) && t in first.threads && first.threads[t].mode != SoftirqMode
    requires first.threads[t].at != Finish && Destroy(t) !in actions
    ensures t in last.threads && last.threads[t].mode == first.threads[t].mode && last.threads[t].at != Finish
    decreases |actions|
  {
    if actions != [] {
      ModeStep(first, actions[0], t);
      ModeStays(Apply(first, actions[0]), actions[1..], last, t);
    }
  }

  lemma ModeStep(s: State, a: Action, t: Tid)
    requires Enabled(s, a) && t in s.threads && s.threads[t].mode != SoftirqMode && s.threads[t].at != Finish
    requires a != Destroy(t)
    ensures var s' := Apply(s, a);
      t in s'.threads && s'.threads[t].mode == s.threads[t].mode && s'.threads[t].at != Finish
  {
  }

  /**
   * A new environment is there, in its mode, until it is destroyed. A system call that has
   * entered and holds no lock is in all three groups; an interrupt that has entered has its flag
   * set and its group barred, and is in no group itself.
   */
  lemma EntryTakesEffect(s: State, a: Action, actions: seq<Action>, s': State)
    requires Reachable(s) && Enabled(s, a) && (a.CallSys? || a.CallInt?)
    requires Run(Apply(s, a), actions, s') && Destroy(a.t) !in actions
    ensures a.t in s'.threads && s'.threads[a.t].mode == if a.CallSys? then SysCall else InterruptMode
    ensures a.CallSys? && s'.threads[a.t].at == Body && s'.threads[a.t].nest == [] ==>
              s'.threads[a.t].groups == {Syscall, Softirq, Interrupt}
    ensures a.CallInt? && s'.threads[a.t].at != Enter ==>
              s'.inInterrupt && Interrupt in s'.barred && s'.threads[a.t].groups == {}
  {
    var called := Apply(s, a);
    ModeStays(called, actions, s', a.t);
    var g := ReachableInv(s);
    var h := Keeps(s, a, g);
    var h' := RunKeeps(called, actions, s', h);
    if h'.n == Some(a.t) || h'.i == Some(a.t) {
      assert OwnerOk(s'.threads[a.t]) || ActiveOk(s'.threads[a.t]);
    } else {
      assert QuietOk(s'.threads[a.t]);
    }
  }

  // ------------------------------------------------- destroy

  /** The environment is going to run the softirqs, or does so. */
  predicate BoundForSoftirqs(th: Thread) {
    th.at == Finish || th.mode == SoftirqMode
  }

  /**
   * The destroy of an interrupt: if no other waits to run the softirqs, it becomes the survivor
   * and joins all three groups; otherwise it is gone, and the survivor is still there.
   */
  lemma InterruptGoesOn(s: State, t: Tid)
    requires Reachable(s) && Enabled(s, Destroy(t)) && s.threads[t].mode == InterruptMode
    ensures var s' := Apply(s, Destroy(t));
      if s.survivor == None then
        && s'.survivor == Some(t) && t in s'.threads && BoundForSoftirqs(s'.threads[t])
        && s'.threads[t].groups == {Syscall, Softirq, Interrupt}
      else
        && t !in s'.threads && s'.survivor == s.survivor
        && s'.survivor.value in s'.threads && BoundForSoftirqs(s'.threads[s'.survivor.value])
  {
    var g := ReachableInv(s);
    if s.survivor.Some? {
      assert s.survivor.value in s.threads && s.threads[s.survivor.value].at == Finish;
    }
  }

  /** The destroy of any other environment goes on to the softirqs itself. */
  lemma OthersGoOn(s: State, t: Tid)
    requires Enabled(s, Destroy(t)) && s.threads[t].mode != InterruptMode
    ensures var s' := Apply(s, Destroy(t));
      t in s'.threads && BoundForSoftirqs(s'.threads[t]) && s'.threads[t].groups == s.threads[t].groups
  {
  }

  lemma StaysBound(s: State, a: Action, t: Tid)
    requires Enabled(s, a) && t in s.threads && BoundForSoftirqs(s.threads[t]) && a != Leave(t)
    ensures t in Apply(s, a).threads && BoundForSoftirqs(Apply(s, a).threads[t])
  {
  }

  lemma {:induction false} RunStaysBound(first: State, actions: seq<Action>, last: State, t: Tid)
    requires Run(first, actions, last) && t in first.threads && BoundForSoftirqs(first.threads[t])
    requires Leave(t) !in actions
    ensures t in last.threads && BoundForSoftirqs(last.threads[t])
    decreases |actions|
  {
    if actions != [] {
      StaysBound(first, actions[0], t);
      RunStaysBound(Apply(first, actions[0]), actions[1..], last, t);
    }
  }

  /**
   * After any destroy, one environment is bound for the softirqs, and it goes only by leaving
   * them: until then it is there, and it has the survivor's slot exactly while it waits to run
   * them.
   */
  lemma DestroyRunsSoftirqs(s: State, t: Tid, actions: seq<Action>, s': State) returns (u: Tid)
    requires Reachable(s) && Enabled(s, Destroy(t)) && Run(Apply(s, Destroy(t)), actions, s')
    ensures u == t || s.survivor == Some(u)
    ensures u == t <==> !(s.threads[t].mode == InterruptMode && s.survivor.Some?)
    ensures Leave(u) !in actions ==>
              && u in s'.threads && BoundForSoftirqs(s'.threads[u])
              && (s'.survivor == Some(u) <==> s'.threads[u].at == Finish)
              && (Enabled(s', Leave(u)) ==> s'.threads[u].mode == SoftirqMode && s'.survivor != Some(u))
  {
    u := WhoGoesOn(s, t);
    if Leave(u) !in actions {
      RunStaysBound(Apply(s, Destroy(t)), actions, s', u);
      SlotAfter(s, Destroy(t), actions, s', u);
    }
  }

  lemma WhoGoesOn(s: State, t: Tid) returns (u: Tid)
    requires Reachable(s) && Enabled(s, Destroy(t))
    ensures u == t || s.survivor == Some(u)
    ensures u == t <==> !(s.threads[t].mode == InterruptMode && s.survivor.Some?)
    ensures u in Apply(s, Destroy(t)).threads && BoundForSoftirqs(Apply(s, Destroy(t)).threads[u])
  {
    u := if s.threads[t].mode == InterruptMode && s.survivor.Some? then s.survivor.value else t;
    if s.threads[t].mode == InterruptMode {
      InterruptGoesOn(s, t);
    } else {
      OthersGoOn(s, t);
    }
  }

  lemma SlotAfter(s: State, a: Action, actions: seq<Action>, s': State, u: Tid)
    requires Reachable(s) && Enabled(s, a) && Run(Apply(s, a), actions, s') && u in s'.threads
    ensures s'.survivor == Some(u) <==> s'.threads[u].at == Finish
  {
    var g := ReachableInv(s);
    var h := Keeps(s, a, g);
    var h' := RunKeeps(Apply(s, a), actions, s', h);
  }

  /** Leaving the softirqs ends the environment, and changes nothing else. */
  lemma LeaveEnds(s: State, t: Tid)
    requires Reachable(s) && Enabled(s, Leave(t))
    ensures var s' := Apply(s, Leave(t));
      && s'.threads == s.threads - {t} && InfoOf(s') == InfoOf(s) && s'.survivor == s.survivor != Some(t)
      && s.barred == {} && s.preempt == 0
  {
    var g := ReachableInv(s);
    DestroyAssertionHolds(s, t);
  }

  // ------------------------------------------------- locks

  /** The locks the thread will hold when its present call returns. */
  function DueNest(th: Thread): seq<Lock> {
    if th.at.LockTested? || th.at == LockBarred then [Plain] + th.nest else th.nest
  }

  /** The action is a call that t makes. */
  predicate CallOf(a: Action, t: Tid) {
    a.t == t && !a.Step?
  }

  lemma StepKeepsDue(s: State, a: Action, t: Tid)
    requires Enabled(s, a) && t in s.threads && !CallOf(a, t)
    ensures t in Apply(s, a).threads && DueNest(Apply(s, a).threads[t]) == DueNest(s.threads[t])
  {
  }

  lemma {:induction false} RunKeepsDue(first: State, actions: seq<Action>, last: State, t: Tid)
    requires Run(first, actions, last) && t in first.threads && forall a :: a in actions ==> !CallOf(a, t)
    ensures t in last.threads && DueNest(last.threads[t]) == DueNest(first.threads[t])
    decreases |actions|
  {
    if actions != [] {
      StepKeepsDue(first, actions[0], t);
      RunKeepsDue(Apply(first, actions[0]), actions[1..], last, t);
    }
  }

  /** The locks a thread holds after a call on a lock. */
  function NestAfter(s: State, a: Action): seq<Lock>
    requires Enabled(s, a) && (a.LockSpin? || a.LockIrq? || a.Unlock?)
  {
    var nest := s.threads[a.t].nest;
    if a.LockSpin? then [Plain] + nest else if a.LockIrq? then [Irq(s.hardirq)] + nest else nest[1..]
  }

  /**
   * When a thread comes back from a lock call it holds that lock innermost, and from an unlock
   * call all but the innermost. With a plain lock held the syscall group is barred to others;
   * with an irqsave lock held, interrupts are too.
   */
  lemma LockCallsTakeEffect(s: State, a: Action, actions: seq<Action>, s': State)
    requires Reachable(s) && Enabled(s, a) && (a.LockSpin? || a.LockIrq? || a.Unlock?)
    requires Run(Apply(s, a), actions, s') && forall b :: b in actions ==> !CallOf(b, a.t)
    requires a.t in s'.threads && s'.threads[a.t].at == Body
    ensures s'.threads[a.t].nest == NestAfter(s, a)
    ensures s'.threads[a.t].mode != InterruptMode && NestAfter(s, a) != [] ==>
              Syscall in s'.barred && Syscall !in s'.threads[a.t].groups
    ensures a.LockIrq? ==> Interrupt in s'.barred && s'.irqDisabled
  {
    var called := Apply(s, a);
    assert a.t in called.threads && DueNest(called.threads[a.t]) == NestAfter(s, a);
    RunKeepsDue(called, actions, s', a.t);
    var g := ReachableInv(s);
    var h := Keeps(s, a, g);
    var h' := RunKeeps(called, actions, s', h);
    if NestAfter(s, a) != [] {
      HeldBars(s', h', a.t);
    }
  }

  lemma HeldBars(s: State, g: Aux, t: Tid)
    requires InvWith(s, g) && t in s.threads && s.threads[t].at == Body && s.threads[t].nest != []
    ensures s.threads[t].mode != InterruptMode ==> Syscall in s.barred && Syscall !in s.threads[t].groups
    ensures s.threads[t].nest[0].Irq? ==> Interrupt in s.barred && s.irqDisabled
  {
    Busy(s, g, t);
    assert s.threads[t].nest[0].Irq? ==> Hard(s.threads[t].nest) > 0;
  }
}
