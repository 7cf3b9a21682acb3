/** What the virtual processor guarantees in every reachable state. */
module VpExclusionTheorems {
  import opened Prelude
  import opened VpLocks
  import opened VpExclusion
  import opened VpExclusionProof

  /** A thread that is not quiet is the owner or the active interrupt. */
  lemma Busy(s: State, g: Aux, t: Tid)
    requires InvQuiet(s, g) && t in s.threads && !QuietOk(s.threads[t])
    ensures g.n == Some(t) || g.i == Some(t)
  {
  }

  /** An interrupt environment between its entry and its destroy. */
  predicate PastEntry(th: Thread) {
    th.mode == InterruptMode && th.at != Enter && th.at != Finish
  }

  /**
   * While a non-interrupt thread counts towards the preempt count, it is the only one outside
   * the syscall group, and no other non-interrupt thread can run.
   */
  lemma OneThreadOutside(s: State, t: Tid, u: Tid)
    requires Reachable(s) && t in s.threads && s.threads[t].mode != InterruptMode && s.threads[t].nest != []
    requires u in s.threads && u != t && s.threads[u].mode != InterruptMode
    ensures Syscall !in s.threads[t].groups && Syscall in s.barred
    ensures Syscall in s.threads[u].groups && !Runnable(s, u) && s.threads[u].nest == []
  {
    var g := ReachableInv(s);
    assert g.n == Some(t);
    assert QuietOk(s.threads[u]);
  }

  /**
   * The preempt count is exactly the nesting of at most two threads: one non-interrupt thread
   * outside the syscall group and one interrupt past its entry.
   */
  lemma CountIsNesting(s: State) returns (n: Option<Thread>, i: Option<Thread>)
    requires Reachable(s)
    ensures s.preempt == |NestOf(n)| + |NestOf(i)| && s.hardirq == Hard(NestOf(n)) + Hard(NestOf(i))
    ensures n.Some? ==> n.value in s.threads.Values && n.value.mode != InterruptMode && Syscall !in n.value.groups
    ensures i.Some? ==> i.value in s.threads.Values && PastEntry(i.value)
    ensures forall t :: t in s.threads && s.threads[t].nest != [] ==>
              Some(s.threads[t]) == n || Some(s.threads[t]) == i
    ensures s.inInterrupt <==> i.Some?
    ensures s.irqDisabled <==> s.hardirq > 0
    ensures Syscall in s.barred <==> n.Some?
    ensures Interrupt in s.barred <==> i.Some? || (n.Some? && Interrupt !in n.value.groups)
    ensures Softirq !in s.barred
  {
    var g := ReachableInv(s);
    n, i := ThreadAt(s, g.n), ThreadAt(s, g.i);
    forall t | t in s.threads && s.threads[t].nest != []
      ensures Some(s.threads[t]) == n || Some(s.threads[t]) == i
    {
      Busy(s, g, t);
    }
  }

  /** While the interrupt group is barred, no interrupt environment gets past its entry. */
  lemma OneInterrupt(s: State, t: Tid, u: Tid)
    requires Reachable(s) && t in s.threads && u in s.threads && PastEntry(s.threads[t])
    ensures Interrupt in s.barred
    ensures PastEntry(s.threads[u]) ==> t == u
    ensures s.threads[u].mode == InterruptMode && s.threads[u].at == Enter ==> !Enabled(s, Step(u))
    ensures s.threads[u].mode != InterruptMode ==> !Runnable(s, u)
  {
    var g := ReachableInv(s);
    Busy(s, g, t);
    if u != t && g.n != Some(u) {
      assert QuietOk(s.threads[u]);
    }
    if s.threads[u].mode != InterruptMode {
      assert Interrupt in s.threads[u].groups;
    }
  }

  /** The assertions made on entry: no hard interrupt count, and for an interrupt no flag set. */
  lemma EntryAssertionsHold(s: State, t: Tid)
    requires Reachable(s) && Enabled(s, Step(t)) && s.threads[t].at == Enter
    ensures s.hardirq == 0 && !s.irqDisabled && !s.inInterrupt
  {
    var g := ReachableInv(s);
    WhoRuns(s, g, t);
  }

  /**
   * destroy asserts preempt_count() == 0 when it turns to the softirqs, and the same count when
   * it comes back from them: neither fails.
   */
  lemma DestroyAssertionHolds(s: State, t: Tid)
    requires Reachable(s) && t in s.threads
    requires
      || (Enabled(s, Destroy(t)) && s.threads[t].mode != InterruptMode)
      || (Enabled(s, Step(t)) && s.threads[t].at == Finish)
      || Enabled(s, Leave(t))
    ensures s.preempt == 0 && s.hardirq == 0 && s.barred == {}
  {
    var g := ReachableInv(s);
    assert g.i != Some(t) && g.n != Some(t);
    assert s.threads[t].groups == All();
    WhoRuns(s, g, t);
  }

  /** Threads that were there before are unchanged, t apart. */
  ghost predicate OthersKept(s: State, e: State, t: Tid) {
    forall u :: u in s.threads && u != t ==> u in e.threads && e.threads[u] == s.threads[u]
  }

  /** While an interrupt is past its entry only it moves; environments may still be created. */
  lemma OnlyInterruptMoves(s: State, a: Action, t: Tid, g: Aux)
    requires InvWith(s, g) && g.i == Some(t) && Enabled(s, a) && a != Destroy(t)
    ensures InvWith(Apply(s, a), g) && OthersKept(s, Apply(s, a), t)
  {
    if a.CallSys? || a.CallInt? {
      CallKeeps(s, a, g);
    } else {
      WhoRuns(s, g, a.t);
      assert a.t == t;
      ActiveKeeps(s, a, g);
      LocalKeepsSurvivor(s, a);
    }
  }

  lemma {:induction false} InterruptAlone(s: State, actions: seq<Action>, e: State, t: Tid, g: Aux)
    requires InvWith(s, g) && g.i == Some(t) && Run(s, actions, e) && Destroy(t) !in actions
    ensures InvWith(e, g) && OthersKept(s, e, t)
    decreases |actions|
  {
    if actions != [] {
      var next := Apply(s, actions[0]);
      OnlyInterruptMoves(s, actions[0], t, g);
      InterruptAlone(next, actions[1..], e, t, g);
      forall u | u in s.threads && u != t
        ensures u in e.threads && e.threads[u] == s.threads[u]
      {
        assert u in next.threads && next.threads[u] == s.threads[u];
      }
    }
  }

  lemma InterruptBegins(s: State, t: Tid) returns (g: Aux)
    requires Reachable(s) && Enabled(s, Step(t)) && s.threads[t].mode == InterruptMode && s.threads[t].at == Enter
    ensures InvWith(Apply(s, Step(t)), g) && g.i == Some(t) && g.n != Some(t)
    ensures (g.n.Some? ==> g.n.value in s.threads) && InfoOf(s) == InfoFrom(ThreadAt(s, g.n), None)
    ensures OthersKept(s, Apply(s, Step(t)), t)
  {
    g := ReachableInv(s);
    WhoRuns(s, g, t);
    EntryKeeps(s, t, g);
    LocalKeepsSurvivor(s, Step(t));
    g := g.(i := Some(t));
  }

  lemma InterruptEnds(e: State, t: Tid, g: Aux)
    requires InvWith(e, g) && g.i == Some(t) && g.n != Some(t) && Enabled(e, Destroy(t))
    ensures e.inInterrupt && e.preempt == |NestOf(ThreadAt(e, g.n))| && e.hardirq == Hard(NestOf(ThreadAt(e, g.n)))
    ensures InfoOf(Apply(e, Destroy(t))) == InfoFrom(ThreadAt(e, g.n), None)
    ensures OthersKept(e, Apply(e, Destroy(t)), t)
  {
    assert e.threads[t].nest == [];
  }

  /**
   * Whatever happens between an interrupt's entry and its destroy, the destroy finds both
   * counts as the entry found them, leaves thread_info and the bars as they were before the
   * entry, and no thread that was there has moved.
   */
  lemma InterruptRestores(s: State, t: Tid, actions: seq<Action>, e: State)
    requires Reachable(s) && Enabled(s, Step(t)) && s.threads[t].mode == InterruptMode && s.threads[t].at == Enter
    requires Run(Apply(s, Step(t)), actions, e) && Destroy(t) !in actions && Enabled(e, Destroy(t))
    ensures e.preempt == s.preempt && e.hardirq == s.hardirq && e.inInterrupt
    ensures InfoOf(Apply(e, Destroy(t))) == InfoOf(s)
    ensures OthersKept(s, Apply(e, Destroy(t)), t)
  {
    var g := InterruptBegins(s, t);
    var entered, ended := Apply(s, Step(t)), Apply(e, Destroy(t));
    InterruptAlone(entered, actions, e, t, g);
    InterruptEnds(e, t, g);
    forall u | u in s.threads && u != t
      ensures u in e.threads && e.threads[u] == s.threads[u]
      ensures u in ended.threads && ended.threads[u] == s.threads[u]
    {
      assert u in entered.threads && entered.threads[u] == s.threads[u];
    }
  }

  /** An unlock finds the preempt field non-zero. */
  lemma UnlockAssertionHolds(s: State, t: Tid)
    requires Reachable(s) && Enabled(s, Unlock(t))
    ensures s.preempt > 0
  {
    var g := ReachableInv(s);
    Busy(s, g, t);
  }

  /** Between calls the running thread passes assertClean. */
  lemma RunningIsClean(s: State, t: Tid)
    requires Reachable(s) && Runnable(s, t) && s.threads[t].at == Body
    ensures s.hardirq > 0 ==> s.irqDisabled && Interrupt in s.barred
    ensures s.inInterrupt <==> s.threads[t].mode == InterruptMode
    ensures s.threads[t].mode == InterruptMode ==> Interrupt in s.barred
    ensures s.threads[t].mode != InterruptMode && s.preempt > 0 ==>
              Syscall in s.barred && Syscall !in s.threads[t].groups
  {
    var g := ReachableInv(s);
    WhoRuns(s, g, t);
    assert g.n != Some(t) && g.i != Some(t) ==> QuietOk(s.threads[t]);
  }

  /** At most one interrupt at a time waits to run the softirqs. */
  lemma OneSurvivor(s: State, t: Tid, u: Tid)
    requires Reachable(s) && t in s.threads && u in s.threads
    requires s.threads[t].at == Finish && s.threads[u].at == Finish
    ensures t == u
  {
    var g := ReachableInv(s);
    assert s.survivor == Some(t);
  }

  /** Some thread can always run: the bars never stop everyone. */
  lemma NeverWedged(s: State) returns (t: Tid)
    requires Reachable(s) && s.threads != map[]
    ensures Runnable(s, t)
  {
    var g := ReachableInv(s);
    if g.i.Some? {
      t := g.i.value;
    } else if g.n.Some? {
      t := g.n.value;
    } else {
      t :| t in s.threads;
    }
  }

  /** When every environment has gone, the virtual processor is as it began. */
  lemma AtRest(s: State)
    requires Reachable(s) && s.threads == map[]
    ensures Init(s)
  {
    var g := ReachableInv(s);
  }
}
