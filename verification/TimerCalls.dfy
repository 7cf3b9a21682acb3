/** What one call of lib/lk/Timer.C does by the time it returns, whatever runs meanwhile. */
module TimerCalls {
  import opened Prelude
  import opened Timers
  import opened TimerProof
  import opened TimerTheorems

  // ------------------------------------------------- one step of a deleter

  predicate StepOf(a: Action, t: Tid) {
    a.StepDeleter? && a.t == t
  }

  /** The armings that the steps of t discard in a run. */
  ghost function DiscardedBy(first: State, actions: seq<Action>, t: Tid): set<Base>
    decreases |actions|
  {
    if actions == [] || !Enabled(first, actions[0]) then {}
    else
      var next := Apply(first, actions[0]);
      (if StepOf(actions[0], t) then next.discarded - first.discarded else {})
      + DiscardedBy(next, actions[1..], t)
  }

  /** A timer's base is known and has not been discarded. */
  lemma ArmedIsLive(s: State, tm: Timer, b: Base)
    requires Reachable(s) && BaseOf(s, tm) == Some(b)
    ensures b in s.bases && b !in s.discarded && s.timers[tm].anchor.Some? && s.timers[tm].anchor.value < |s.vps|
  {
    LinkFacts(s, tm, b);
    BaseFacts(s, b);
    AnchorFacts(s, tm, b);
  }

  lemma AnchorFacts(s: State, tm: Timer, b: Base)
    requires Reachable(s) && BaseOf(s, tm) == Some(b)
    ensures s.timers[tm].anchor.Some? && s.timers[tm].anchor.value < |s.vps|
  {
    ReachableInv(s);
  }

  /** The locked section of a deleter discards the base it finds, and returns true for it. */
  lemma SectionDiscards(s: State, t: Tid)
    requires Reachable(s) && Enabled(s, StepDeleter(t)) && s.callers[t].at == DelLock
    ensures var k, s' := s.callers[t], Apply(s, StepDeleter(t));
      && t in s'.callers && s'.callers[t] == k.(at := DelAgain, result := k.result || BaseOf(s, k.timer).Some?)
      && s'.discarded - s.discarded == (if BaseOf(s, k.timer).Some? then {BaseOf(s, k.timer).value} else {})
      && BaseOf(s', k.timer) == None
  {
    var k := s.callers[t];
    if BaseOf(s, k.timer).Some? {
      ArmedIsLive(s, k.timer, BaseOf(s, k.timer).value);
    }
  }

  /** A deleter's other steps discard nothing and keep the result. */
  lemma OtherSteps(s: State, t: Tid)
    requires Enabled(s, StepDeleter(t)) && s.callers[t].at != DelLock
    ensures var k, s' := s.callers[t], Apply(s, StepDeleter(t));
      && t in s'.callers && s'.callers[t] == k.(at := s'.callers[t].at)
      && s'.discarded == s.discarded && s'.timers == s.timers
      && (k.at == DelLook && BaseOf(s, k.timer).Some? ==> s'.callers[t].at == DelLock)
      && (s'.callers[t].at == Returned ==> k.at == DelAgain && (k.sync ==> BaseOf(s, k.timer).None?))
  {
  }

  /** Other threads leave the record of a deleter alone, and what is discarded stays so. */
  lemma OthersLeave(s: State, a: Action, t: Tid)
    requires Enabled(s, a) && t in s.callers && s.callers[t].at != ModLock && !StepOf(a, t)
    ensures t in Apply(s, a).callers && Apply(s, a).callers[t] == s.callers[t]
  {
  }

  lemma OneMore(s: State, a: Action, t: Tid)
    requires Reachable(s) && Enabled(s, a) && t in s.callers && IsDeleter(s.callers[t])
    ensures var s' := Apply(s, a);
      && t in s'.callers && IsDeleter(s'.callers[t]) && s'.callers[t].timer == s.callers[t].timer
      && s'.callers[t].sync == s.callers[t].sync
      && (s'.callers[t].result <==>
            s.callers[t].result || (StepOf(a, t) && s'.discarded - s.discarded != {}))
  {
    if !StepOf(a, t) {
      OthersLeave(s, a, t);
    } else if s.callers[t].at == DelLock {
      SectionDiscards(s, t);
    } else {
      OtherSteps(s, t);
    }
  }

  predicate IsDeleter(k: Caller) {
    k.at != ModLock
  }

  lemma {:induction false} ResultTallies(first: State, actions: seq<Action>, last: State, t: Tid)
    requires Reachable(first) && Run(first, actions, last) && t in first.callers && IsDeleter(first.callers[t])
    ensures t in last.callers
    ensures last.callers[t].result <==> first.callers[t].result || DiscardedBy(first, actions, t) != {}
    decreases |actions|
  {
    if actions != [] {
      OneMore(first, actions[0], t);
      ReachableStep(first, actions[0]);
      ResultTallies(Apply(first, actions[0]), actions[1..], last, t);
    }
  }

  /** del_timer returns true exactly if a locked section of this call has discarded an arming. */
  lemma DelTimerResultExact(s: State, t: Tid, tm: Timer, sync: bool, actions: seq<Action>, s': State)
    requires Reachable(s) && Enabled(s, DelTimer(t, tm, sync)) && Run(Apply(s, DelTimer(t, tm, sync)), actions, s')
    ensures t in s'.callers
    ensures s'.callers[t].result <==> DiscardedBy(Apply(s, DelTimer(t, tm, sync)), actions, t) != {}
  {
    ReachableStep(s, DelTimer(t, tm, sync));
    ResultTallies(Apply(s, DelTimer(t, tm, sync)), actions, s', t);
  }

  // ------------------------------------------------- what del_timer achieves

  /** Some step that is not t's takes the arming b from the timer. */
  ghost predicate TakenByOthers(first: State, actions: seq<Action>, t: Tid, tm: Timer, b: Base)
    decreases |actions|
  {
    && actions != [] && Enabled(first, actions[0])
    && var next := Apply(first, actions[0]);
       || (!StepOf(actions[0], t) && BaseOf(first, tm) == Some(b) && BaseOf(next, tm) != Some(b))
       || TakenByOthers(next, actions[1..], t, tm, b)
  }

  /** The deleter has discarded b, or still will. */
  ghost predicate DeletesIt(s: State, t: Tid, tm: Timer, b: Base) {
    && t in s.callers && s.callers[t].timer == tm && IsDeleter(s.callers[t])
    && if b in s.discarded then s.callers[t].result
       else BaseOf(s, tm) == Some(b) && (s.callers[t].at == DelLook || s.callers[t].at == DelLock)
  }

  lemma StepDeletes(s: State, a: Action, t: Tid, tm: Timer, b: Base)
    requires Reachable(s) && Enabled(s, a) && DeletesIt(s, t, tm, b)
    requires BaseOf(s, tm) == Some(b) && !StepOf(a, t) ==> BaseOf(Apply(s, a), tm) == Some(b)
    ensures DeletesIt(Apply(s, a), t, tm, b)
  {
    var s' := Apply(s, a);
    DiscardGrows(s, a);
    OneMore(s, a, t);
    if b !in s.discarded {
      if StepOf(a, t) {
        if s.callers[t].at == DelLock {
          SectionDiscards(s, t);
          assert b in s'.discarded - s.discarded;
        } else {
          OtherSteps(s, t);
        }
      } else {
        OthersLeave(s, a, t);
        ReachableStep(s, a);
        ArmedIsLive(s', tm, b);
      }
    }
  }

  lemma DiscardGrows(s: State, a: Action)
    requires Enabled(s, a)
    ensures s.discarded <= Apply(s, a).discarded
  {
  }

  lemma {:induction false} RunDeletes(first: State, actions: seq<Action>, last: State, t: Tid, tm: Timer, b: Base)
    requires Reachable(first) && Run(first, actions, last) && DeletesIt(first, t, tm, b)
    requires !TakenByOthers(first, actions, t, tm, b)
    ensures DeletesIt(last, t, tm, b)
    decreases |actions|
  {
    if actions != [] {
      StepDeletes(first, actions[0], t, tm, b);
      ReachableStep(first, actions[0]);
      RunDeletes(Apply(first, actions[0]), actions[1..], last, t, tm, b);
    }
  }

  /**
   * If the timer is armed when del_timer or del_timer_sync is called, and nobody else takes that
   * arming from it meanwhile, the call returns with the arming discarded, and returns true.
   */
  lemma DelTimerDiscards(s: State, t: Tid, tm: Timer, sync: bool, b: Base, actions: seq<Action>, s': State)
    requires Reachable(s) && Enabled(s, DelTimer(t, tm, sync)) && BaseOf(s, tm) == Some(b)
    requires Run(Apply(s, DelTimer(t, tm, sync)), actions, s') && t in s'.callers && s'.callers[t].at == Returned
    requires !TakenByOthers(Apply(s, DelTimer(t, tm, sync)), actions, t, tm, b)
    ensures b in s'.discarded && s'.callers[t].result
  {
    ArmedIsLive(s, tm, b);
    ReachableStep(s, DelTimer(t, tm, sync));
    RunDeletes(Apply(s, DelTimer(t, tm, sync)), actions, s', t, tm, b);
  }

  /** A call that returns at once found the timer not armed. */
  lemma ReturnsAtOnce(s: State, t: Tid, tm: Timer, sync: bool)
    requires Reachable(s) && Enabled(s, DelTimer(t, tm, sync))
    ensures Apply(s, DelTimer(t, tm, sync)).callers[t].at == Returned ==> BaseOf(s, tm) == None
  {
    if BaseOf(s, tm).Some? {
      ArmedIsLive(s, tm, BaseOf(s, tm).value);
    }
  }

  /** del_timer_sync returns only from a step that finds the timer not armed. */
  lemma SyncReturnsUnarmed(s: State, t: Tid)
    requires Reachable(s) && Enabled(s, StepDeleter(t)) && s.callers[t].sync
    requires Apply(s, StepDeleter(t)).callers[t].at == Returned
    ensures BaseOf(s, s.callers[t].timer) == None && BaseOf(Apply(s, StepDeleter(t)), s.callers[t].timer) == None
  {
    if s.callers[t].at == DelLock {
      SectionDiscards(s, t);
    } else {
      OtherSteps(s, t);
    }
  }

  // ------------------------------------------------- what __mod_timer achieves

  /** By the time __mod_timer gets its locks its record is as it was made. */
  lemma {:induction false} ModifierWaits(first: State, actions: seq<Action>, last: State, t: Tid)
    requires Run(first, actions, last) && InvCaller(first) && InvLink(first)
    requires t in first.callers && first.callers[t].at == ModLock
    requires forall a :: a in actions ==> !(a.StepModifier? && a.t == t)
    ensures t in last.callers && last.callers[t] == first.callers[t]
    decreases |actions|
  {
    if actions != [] {
      LinksKeep(first, actions[0]);
      HeldTimer(first, actions[0], t);
      ModifierWaits(Apply(first, actions[0]), actions[1..], last, t);
    }
  }

  /**
   * The section of __mod_timer, unless it faults: the call returns true exactly if the timer was
   * armed when its lock was taken; the timer is armed with the new base, which waits, scheduled
   * on the VP of the call; and what it was armed with is discarded.
   */
  lemma ModTimerArms(s: State, t: Tid, tm: Timer, v: Vp, actions: seq<Action>, s': State, b: Base)
    requires Reachable(s) && Enabled(s, ModTimer(t, tm, v)) && Run(Apply(s, ModTimer(t, tm, v)), actions, s')
    requires forall a :: a in actions ==> !(a.StepModifier? && a.t == t)
    requires Enabled(s', StepModifier(t, b)) && !Apply(s', StepModifier(t, b)).fault
    ensures var e := Apply(s', StepModifier(t, b));
      && t in e.callers && e.callers[t].at == Returned && (e.callers[t].result <==> BaseOf(s, tm).Some?)
      && BaseOf(e, tm) == Some(b) && e.timers[tm].anchor == Some(v) && e.timers[tm].owner == None
      && b in e.bases && e.bases[b] == BaseRec(Waiting, Some(tm), v) && v < |e.vps| && b in e.vps[v].scheduled
      && (BaseOf(s', tm).Some? ==> BaseOf(s', tm).value in e.discarded)
  {
    var called := Apply(s, ModTimer(t, tm, v));
    if BaseOf(s, tm).Some? {
      ArmedIsLive(s, tm, BaseOf(s, tm).value);
    }
    ReachableStep(s, ModTimer(t, tm, v));
    ReachableInv(called);
    ModifierWaits(called, actions, s', t);
    ReachableRun(called, actions, s');
    NeverRepeats(s', t);
    SectionArms(s', t, b);
  }

  lemma {:induction false} ReachableRun(first: State, actions: seq<Action>, last: State)
    requires Reachable(first) && Run(first, actions, last)
    ensures Reachable(last)
    decreases |actions|
  {
    if actions != [] {
      ReachableStep(first, actions[0]);
      ReachableRun(Apply(first, actions[0]), actions[1..], last);
    }
  }

  lemma SectionArms(s: State, t: Tid, b: Base)
    requires Reachable(s) && Enabled(s, StepModifier(t, b)) && !Apply(s, StepModifier(t, b)).fault
    requires s.callers[t].oldAnchor == s.timers[s.callers[t].timer].anchor
    ensures var e, k := Apply(s, StepModifier(t, b)), s.callers[t];
      && t in e.callers && e.callers[t] == k.(at := Returned, result := k.oldAnchor.Some?)
      && k.timer in e.timers && e.timers[k.timer] == TimerRec(Some(b), Some(k.vp), None)
      && b in e.bases && e.bases[b] == BaseRec(Waiting, Some(k.timer), k.vp)
      && k.vp < |e.vps| && b in e.vps[k.vp].scheduled
      && (BaseOf(s, k.timer).Some? ==> BaseOf(s, k.timer).value in e.discarded)
  {
    var k := s.callers[t];
    if BaseOf(s, k.timer).Some? {
      ArmedIsLive(s, k.timer, BaseOf(s, k.timer).value);
    }
  }

  // ------------------------------------------------- an expiry

  /** The handler has b, or b has fired, or it was discarded. */
  ghost predicate Expired(s: State, v: Vp, b: Base) {
    v < |s.vps| && (s.vps[v].handler == Swing(b) || b in s.vps[v].fired || b in s.discarded)
  }

  lemma StepExpires(s: State, a: Action, v: Vp, b: Base)
    requires Reachable(s) && Enabled(s, a) && Expired(s, v, b)
    ensures Expired(Apply(s, a), v, b)
  {
    DiscardGrows(s, a);
    FiredGrows(s, a, v);
    if a == StepHandler(v) && s.vps[v].handler == Swing(b) {
      HandlerAssertionExact(s, v);
      BaseFacts(s, b);
    }
  }

  lemma FiredGrows(s: State, a: Action, v: Vp)
    requires Enabled(s, a) && v < |s.vps|
    ensures v < |Apply(s, a).vps| && forall b :: b in s.vps[v].fired ==> b in Apply(s, a).vps[v].fired
    ensures a != StepHandler(v) && s.vps[v].handler != Quiet ==> Apply(s, a).vps[v].handler == s.vps[v].handler
  {
    if a.StepRunner? {
      RunnerKeepsFired(s, a.v, v);
    } else if a.StepDeleter? || a.StepModifier? {
      CallersKeepFired(s, a, v);
    }
  }

  lemma RunnerKeepsFired(s: State, u: Vp, v: Vp)
    requires u < |s.vps| && v < |s.vps|
    ensures var s' := AfterRunner(s, u);
      |s'.vps| == |s.vps| && s'.vps[v].fired == s.vps[v].fired && s'.vps[v].handler == s.vps[v].handler
  {
    if Cleans(s.vps[u]) {
      CleanKeepsFired(s, u, v);
    } else {
      RunnerRecord(s.vps[u], Calls(s, s.vps[u]));
      assert AfterRunner(s, u).vps == s.vps[u := RunnerNext(s.vps[u], Calls(s, s.vps[u]))];
    }
  }

  lemma RunnerRecord(r: VpRec, calls: bool)
    ensures RunnerNext(r, calls).fired == r.fired && RunnerNext(r, calls).handler == r.handler
  {
  }

  lemma CleanKeepsFired(s: State, u: Vp, v: Vp)
    requires u < |s.vps| && v < |s.vps| && Cleans(s.vps[u])
    ensures var s' := AfterClean(s, u);
      |s'.vps| == |s.vps| && s'.vps[v].fired == s.vps[v].fired && s'.vps[v].handler == s.vps[v].handler
  {
    var r, x := s.vps[u], s.vps[u].cleaning[0];
    var vps := s.vps[u := r.(cleaning := r.cleaning[1..])];
    if x in s.bases {
      assert AfterClean(s, u).vps == Unscheduled(vps, s.bases[x].vp, x);
    } else {
      assert AfterClean(s, u).vps == vps;
    }
  }

  lemma CallersKeepFired(s: State, a: Action, v: Vp)
    requires Enabled(s, a) && (a.StepDeleter? || a.StepModifier?) && v < |s.vps|
    ensures var s' := Apply(s, a);
      |s'.vps| == |s.vps| && s'.vps[v].fired == s.vps[v].fired && s'.vps[v].handler == s.vps[v].handler
  {
  }

  /**
   * Once an arming's time has come and handleEvent has run for it, it has fired, so that runTimer
   * calls its function, unless it was discarded.
   */
  lemma {:induction false} ExpiryFires(first: State, actions: seq<Action>, last: State, v: Vp, b: Base)
    requires Reachable(first) && Expired(first, v, b) && Run(first, actions, last)
    ensures Expired(last, v, b)
    decreases |actions|
  {
    if actions != [] {
      StepExpires(first, actions[0], v, b);
      ReachableStep(first, actions[0]);
      ExpiryFires(Apply(first, actions[0]), actions[1..], last, v, b);
    }
  }

  /**
   * An arming that expires has had its function called by the time its VP is at rest again,
   * unless it was discarded.
   */
  lemma ExpiredIsCalled(s: State, v: Vp, b: Base, actions: seq<Action>, s': State)
    requires Reachable(s) && Enabled(s, Expire(v, b)) && Run(Apply(s, Expire(v, b)), actions, s')
    requires v < |s'.vps|
    requires var r := s'.vps[v]; r.handler == Quiet && r.runner == Off && r.events == 0 && !r.softirq
    ensures b in s'.discarded || b in s'.vps[v].ran
  {
    ReachableStep(s, Expire(v, b));
    ExpiryFires(Apply(s, Expire(v, b)), actions, s', v, b);
    ReachableRun(Apply(s, Expire(v, b)), actions, s');
    AllCalledAtRest(s', v);
    if b in s'.vps[v].fired && b !in s'.discarded {
      OutsideHas(s'.vps[v].fired, s'.discarded, b);
    }
  }

  lemma {:induction false} OutsideHas(list: seq<Base>, x: set<Base>, b: Base)
    requires b in list && b !in x
    ensures b in Outside(list, x)
  {
    var n := |list| - 1;
    assert list == list[..n] + [list[n]];
    if b in list[..n] {
      OutsideHas(list[..n], x, b);
    }
  }

  // ------------------------------------------------- cleaning up

  /** The base is on its way to being deleted by the runner of v. */
  predicate Doomed(s: State, v: Vp, b: Base) {
    && v < |s.vps|
    && var r := s.vps[v];
       || b in s.frees
       || (b in r.purge && r.runner != Off && r.runner != Clean)
       || (b in r.cleaning && r.runner == Clean)
  }

  lemma StaysDoomed(s: State, a: Action, v: Vp, b: Base)
    requires Enabled(s, a) && Doomed(s, v, b)
    ensures Doomed(Apply(s, a), v, b)
  {
    if a.StepRunner? {
      RunnerDooms(s, a.v, v, b);
    } else if a.StepDeleter? || a.StepModifier? {
      CallersKeepDoom(s, a, v);
    }
  }

  lemma CallersKeepDoom(s: State, a: Action, v: Vp)
    requires Enabled(s, a) && (a.StepDeleter? || a.StepModifier?) && v < |s.vps|
    ensures var r, r' := s.vps[v], Apply(s, a).vps[v];
      && |Apply(s, a).vps| == |s.vps| && Apply(s, a).frees == s.frees
      && r'.runner == r.runner && r'.cleaning == r.cleaning && forall b :: b in r.purge ==> b in r'.purge
  {
  }

  lemma RunnerDooms(s: State, u: Vp, v: Vp, b: Base)
    requires u < |s.vps| && v < |s.vps| && Doomed(s, v, b)
    ensures Doomed(AfterRunner(s, u), v, b)
  {
    if Cleans(s.vps[u]) {
      CleanDooms(s, u, v, b);
    } else {
      assert AfterRunner(s, u).vps == s.vps[u := RunnerNext(s.vps[u], Calls(s, s.vps[u]))];
      assert s.frees <= AfterRunner(s, u).frees;
    }
  }

  lemma CleanDooms(s: State, u: Vp, v: Vp, b: Base)
    requires u < |s.vps| && v < |s.vps| && Cleans(s.vps[u]) && Doomed(s, v, b)
    ensures Doomed(AfterClean(s, u), v, b)
  {
    var x, r, s' := s.vps[u].cleaning[0], s.vps[u], AfterClean(s, u);
    var vps := s.vps[u := r.(cleaning := r.cleaning[1..])];
    assert s'.vps == if x in s.bases then Unscheduled(vps, s.bases[x].vp, x) else vps;
    assert r.cleaning == [x] + r.cleaning[1..];
    assert s'.frees == s.frees + multiset{x};
  }

  lemma {:induction false} RunDooms(first: State, actions: seq<Action>, last: State, v: Vp, b: Base)
    requires Run(first, actions, last) && Doomed(first, v, b)
    ensures Doomed(last, v, b)
    decreases |actions|
  {
    if actions != [] {
      StaysDoomed(first, actions[0], v, b);
      RunDooms(Apply(first, actions[0]), actions[1..], last, v, b);
    }
  }

  /** What is on the purge list when runTimer starts has been deleted by the time it ends. */
  lemma RunTimerCleansUp(s: State, v: Vp, b: Base, actions: seq<Action>, s': State)
    requires Enabled(s, StartRun(v)) && b in s.vps[v].purge && Run(Apply(s, StartRun(v)), actions, s')
    requires v < |s'.vps| ==> s'.vps[v].runner == Off
    ensures b in s'.frees
  {
    RunDooms(Apply(s, StartRun(v)), actions, s', v, b);
  }

  /** With nothing under way on a VP, what has fired there has been deleted. */
  lemma FiredIsDeletedAtRest(s: State, v: Vp, b: Base)
    requires Reachable(s) && v < |s.vps| && b in s.vps[v].fired
    requires var r := s.vps[v]; r.handler == Quiet && r.runner == Off && r.events == 0 && !r.softirq
    ensures b in s.frees
  {
    AllCalledAtRest(s, v);
    HomeFacts(s, v, b);
    BaseFacts(s, b);
  }
}
