/** The promises of lib/lk/Timer.C, over every run. */
module TimerTheorems {
  import opened Prelude
  import opened Timers
  import opened TimerProof

  // ------------------------------------------------- what the invariant says, piece by piece

  lemma VpFacts(s: State, v: Vp)
    requires Reachable(s) && v < |s.vps|
    ensures VpOk(s.vps[v], s.discarded)
  {
    ReachableInv(s);
  }

  lemma BaseFacts(s: State, b: Base)
    requires Reachable(s) && (b in s.bases || b in s.frees)
    ensures b in s.bases && s.bases[b].vp < |s.vps| && Ok(ViewOf(s, b))
  {
    ReachableInv(s);
  }

  lemma ReachableHome(s: State)
    requires Reachable(s)
    ensures InvHome(s)
  {
    ReachableInv(s);
  }

  lemma HomeFacts(s: State, v: Vp, b: Base)
    requires Reachable(s) && v < |s.vps| && Mentions(s.vps[v], b)
    ensures b in s.bases && s.bases[b].vp == v
  {
    ReachableHome(s);
  }

  lemma LinkFacts(s: State, tm: Timer, b: Base)
    requires Reachable(s) && BaseOf(s, tm) == Some(b)
    ensures Linked(s, b)
  {
    ReachableInv(s);
  }

  // ------------------------------------------------- deletion

  /** Everything that can still reach a base through a VP. */
  ghost predicate Reaches(r: VpRec, b: Base) {
    || b in r.scheduled || b in r.expired || b in r.swapped || b in r.batch || b in r.purge || b in r.cleaning
    || r.handler == Swing(b) || b in InHandler(r) || Current(r) == Some(b)
  }

  /** What waits for runTimer has fired and has not been taken. */
  lemma WaitingIsUntaken(r: VpRec, b: Base)
    requires InvOrder(r) && (b in r.expired || b in r.swapped || b in r.batch || b in InHandler(r))
    ensures b in r.fired && b !in r.taken
  {
    ReversedIn(r.expired, b);
    ReversedIn(r.swapped, b);
    var p := Pipeline(r);
    assert b in p;
    var i :| 0 <= i < |p| && p[i] == b;
    assert r.fired[|r.taken| + i] == b;
    assert forall j :: 0 <= j < |r.taken| ==> r.fired[j] == r.taken[j];
  }

  /** No base is ever deleted twice. */
  lemma NeverFreedTwice(s: State, b: Base)
    requires Reachable(s)
    ensures s.frees[b] <= 1
  {
    if b in s.frees {
      BaseFacts(s, b);
    }
  }

  lemma PlaceFacts(s: State, v: Vp, b: Base)
    requires Reachable(s) && v < |s.vps| && (b in s.vps[v].purge || b in s.vps[v].cleaning)
    ensures b in s.bases && b in s.purged && s.purged[b] == v
  {
    ReachablePlace(s);
    assert multiset(s.vps[v].purge)[b] > 0 || multiset(s.vps[v].cleaning)[b] > 0;
    assert Listed(s.vps[v], b) > 0;
  }

  lemma ReachablePlace(s: State)
    requires Reachable(s)
    ensures InvPlace(s) && InvKnown(s)
  {
    ReachableInv(s);
  }

  lemma ReachesView(s: State, b: Base, v: Vp)
    requires Reachable(s) && v < |s.vps| && Reaches(s.vps[v], b)
    ensures b in s.bases && s.bases[b].vp < |s.vps|
    ensures var w := ViewOf(s, b);
      w.purging || (s.bases[b].vp == v && (w.scheduled || w.swinging || w.current || (w.fired && !w.taken)))
  {
    var r := s.vps[v];
    if b in r.purge || b in r.cleaning {
      PlaceFacts(s, v, b);
    } else {
      if b in r.expired || b in r.swapped || b in r.batch || b in InHandler(r) {
        VpFacts(s, v);
        WaitingIsUntaken(r, b);
      }
      HomeFacts(s, v, b);
    }
    BaseFacts(s, b);
  }

  /**
   * A deleted base is on no list and no queue, no function of it is being called and no timer has
   * it. The only thing that can still have it is a handleEvent that had been entered.
   */
  lemma FreedReachedExact(s: State, b: Base)
    requires Reachable(s) && b in s.frees
    ensures forall v :: 0 <= v < |s.vps| ==> (Reaches(s.vps[v], b) <==> s.vps[v].handler == Swing(b))
    ensures forall tm :: BaseOf(s, tm) != Some(b)
  {
    BaseFacts(s, b);
    forall v | 0 <= v < |s.vps|
      ensures Reaches(s.vps[v], b) <==> s.vps[v].handler == Swing(b)
    {
      if Reaches(s.vps[v], b) {
        ReachesView(s, b, v);
      }
    }
    forall tm
      ensures BaseOf(s, tm) != Some(b)
    {
      if BaseOf(s, tm) == Some(b) {
        LinkFacts(s, tm, b);
      }
    }
  }

  /** The step deletes a base that something still reaches. */
  ghost predicate FreesReached(s: State, v: Vp, b: Base)
    requires Enabled(s, StepRunner(v))
  {
    var s' := Apply(s, StepRunner(v));
    s'.frees[b] > s.frees[b] && exists u :: 0 <= u < |s'.vps| && Reaches(s'.vps[u], b)
  }

  /** The step is cleanUp deleting a base of another VP, whose handleEvent has been entered. */
  predicate CleansUnderHandler(s: State, v: Vp, b: Base)
    requires v < |s.vps|
  {
    && Cleans(s.vps[v]) && b == s.vps[v].cleaning[0] && b in s.bases
    && s.bases[b].vp < |s.vps| && s.vps[s.bases[b].vp].handler == Swing(b)
  }

  lemma CleanKeepsHandler(s: State, v: Vp, u: Vp)
    requires v < |s.vps| && u < |s.vps| && Cleans(s.vps[v])
    ensures AfterClean(s, v).vps[u].handler == s.vps[u].handler
  {
  }

  lemma RunnerKeepsHandler(r: VpRec, calls: bool)
    ensures RunnerNext(r, calls).handler == r.handler
  {
  }

  lemma HandlersKept(s: State, v: Vp, u: Vp)
    requires v < |s.vps| && u < |s.vps|
    ensures AfterRunner(s, v).vps[u].handler == s.vps[u].handler
  {
    if Cleans(s.vps[v]) {
      CleanKeepsHandler(s, v, u);
    } else {
      RunnerKeepsHandler(s.vps[v], Calls(s, s.vps[v]));
    }
  }

  /** A runner frees a base that something still reaches if and only if it does so. */
  lemma FreesReachedExact(s: State, v: Vp, b: Base)
    requires Reachable(s) && Enabled(s, StepRunner(v))
    ensures FreesReached(s, v, b) <==> CleansUnderHandler(s, v, b)
  {
    var s' := Apply(s, StepRunner(v));
    ReachableStep(s, StepRunner(v));
    if CleansUnderHandler(s, v, b) {
      HandlersKept(s, v, s.bases[b].vp);
      assert Reaches(s'.vps[s.bases[b].vp], b);
    } else if FreesReached(s, v, b) {
      var u :| 0 <= u < |s'.vps| && Reaches(s'.vps[u], b);
      FreedReachedExact(s', b);
      HandlersKept(s, v, u);
      HomeFacts(s, u, b);
      RunnerSparesHandler(s, v, b);
    }
  }

  /** Outside cleanUp a runner deletes its own bases, and those no handler has. */
  lemma RunnerSparesHandler(s: State, v: Vp, b: Base)
    requires Reachable(s) && Enabled(s, StepRunner(v)) && !Cleans(s.vps[v]) && b in s.bases && s.bases[b].vp < |s.vps|
    requires s.vps[s.bases[b].vp].handler == Swing(b)
    ensures Apply(s, StepRunner(v)).frees[b] == s.frees[b]
  {
    var r := s.vps[v];
    VpFacts(s, v);
    RunnerMentions(r, Calls(s, r), b);
    if Mentions(r, b) {
      HomeFacts(s, v, b);
    }
    FreedCount(s, Deletes(r, Calls(s, r)), b);
  }

  lemma {:induction false} RunExtend(first: State, actions: seq<Action>, mid: State, a: Action)
    requires Run(first, actions, mid) && Enabled(mid, a)
    ensures Run(first, actions + [a], Apply(mid, a))
    decreases |actions|
  {
    if actions == [] {
      assert [a][1..] == [];
    } else {
      RunExtend(Apply(first, actions[0]), actions[1..], mid, a);
      assert (actions + [a])[1..] == actions[1..] + [a];
    }
  }

  lemma ReachableStep(s: State, a: Action)
    requires Reachable(s) && Enabled(s, a)
    ensures Reachable(Apply(s, a))
  {
    var first, actions :| Init(first) && Run(first, actions, s);
    RunExtend(first, actions, s, a);
  }

  /**
   * Without an unsettled deleter, bases are only taken off the queue of the VP that cleans up, and
   * nothing at all still has a base that was deleted.
   */
  lemma SettledFreedIsUnreachable(s: State, b: Base, v: Vp)
    requires SettledReachable(s) && v < |s.vps|
    ensures b in s.frees ==> !Reaches(s.vps[v], b)
    ensures Cleans(s.vps[v]) ==> s.vps[v].cleaning[0] in s.bases && s.bases[s.vps[v].cleaning[0]].vp == v
  {
    SettledIsTidy(s);
    if b in s.frees {
      FreedReachedExact(s, b);
    }
    if Cleans(s.vps[v]) {
      assert s.vps[v].cleaning[0] in s.vps[v].cleaning;
      PlaceFacts(s, v, s.vps[v].cleaning[0]);
    }
  }

  /**
   * The lists that lead to runTimer and those that lead to cleanUp are disjoint, on all VPs, and
   * none holds a base twice.
   */
  lemma ListsAreDisjoint(s: State, v: Vp, u: Vp, b: Base)
    requires Reachable(s) && v < |s.vps| && u < |s.vps|
    requires b in s.vps[v].expired || b in s.vps[v].swapped || b in s.vps[v].batch || b in InHandler(s.vps[v])
    ensures b !in s.vps[u].purge && b !in s.vps[u].cleaning && b !in s.vps[u].scheduled
    ensures Distinct(Pipeline(s.vps[v]))
  {
    var r := s.vps[v];
    VpFacts(s, v);
    PipelineDistinct(r);
    WaitingIsUntaken(r, b);
    HomeFacts(s, v, b);
    BaseFacts(s, b);
    if b in s.vps[u].purge || b in s.vps[u].cleaning {
      PlaceFacts(s, u, b);
    }
    if b in s.vps[u].scheduled {
      HomeFacts(s, u, b);
    }
  }

  /** A base is on one purge or cleaning list at most, and once. */
  lemma PurgedOnce(s: State, v: Vp, u: Vp, b: Base)
    requires Reachable(s) && v < |s.vps| && u < |s.vps| && Listed(s.vps[v], b) > 0 && Listed(s.vps[u], b) > 0
    ensures v == u && Listed(s.vps[v], b) == 1
  {
    ReachablePlace(s);
    assert Listed(s.vps[v], b) == if b in s.purged && s.purged[b] == v then 1 else 0;
    assert Listed(s.vps[u], b) == if b in s.purged && s.purged[b] == u then 1 else 0;
  }

  lemma PipelineDistinct(r: VpRec)
    requires InvOrder(r)
    ensures Distinct(Pipeline(r))
  {
    var n, p := |r.taken|, Pipeline(r);
    forall i, j | 0 <= i < j < |p|
      ensures p[i] != p[j]
    {
      assert r.fired[n + i] == p[i] && r.fired[n + j] == p[j];
    }
  }

  // ------------------------------------------------- calls

  lemma {:induction false} OutsideMembers(list: seq<Base>, x: set<Base>, b: Base)
    ensures b in Outside(list, x) <==> b in list && b !in x
  {
    if list != [] {
      var n := |list| - 1;
      OutsideMembers(list[..n], x, b);
      assert list == list[..n] + [list[n]];
    }
  }

  lemma {:induction false} OutsideDistinct(list: seq<Base>, x: set<Base>)
    requires Distinct(list)
    ensures Distinct(Outside(list, x))
  {
    if list != [] {
      var n := |list| - 1;
      OutsideDistinct(list[..n], x);
      OutsideMembers(list[..n], x, list[n]);
    }
  }

  lemma PrefixDistinct(xs: seq<Base>, ys: seq<Base>)
    requires Distinct(xs + ys)
    ensures Distinct(xs)
  {
    forall i, j | 0 <= i < j < |xs|
      ensures xs[i] != xs[j]
    {
      assert (xs + ys)[i] == xs[i] && (xs + ys)[j] == xs[j];
    }
  }

  lemma RunsOnce(r: VpRec, discarded: set<Base>)
    requires InvOrder(r) && CallsInOrder(r, discarded)
    ensures Distinct(r.ran)
    ensures forall b :: b in r.ran ==> b !in discarded && b in r.taken
  {
    PrefixDistinct(r.taken, Pipeline(r));
    OutsideDistinct(r.taken, discarded);
    PrefixDistinct(r.ran, if r.runner.Calling? then [r.runner.b] else []);
    forall b | b in r.ran
      ensures b !in discarded && b in r.taken
    {
      assert b in Outside(r.taken, discarded);
      OutsideMembers(r.taken, discarded, b);
    }
  }

  /** Each arming's function is called at most once, by its own VP, and never after a discard. */
  lemma EachArmingRunsOnce(s: State, v: Vp)
    requires Reachable(s) && v < |s.vps|
    ensures Distinct(s.vps[v].ran)
    ensures forall b :: b in s.vps[v].ran ==> b !in s.discarded && b in s.bases && s.bases[b].vp == v
  {
    VpFacts(s, v);
    RunsOnce(s.vps[v], s.discarded);
    forall b | b in s.vps[v].ran
      ensures b in s.bases && s.bases[b].vp == v
    {
      HomeFacts(s, v, b);
    }
  }

  /** A discard is for ever: whatever follows, a discarded arming is not run. */
  lemma {:induction false} DiscardIsFinal(s: State, actions: seq<Action>, s': State)
    requires Run(s, actions, s')
    ensures s.discarded <= s'.discarded
    decreases |actions|
  {
    if actions != [] {
      DiscardIsFinal(Apply(s, actions[0]), actions[1..], s');
    }
  }

  /**
   * Functions are called in the order in which handleEvent's compare-and-store
   * succeeded, across every batch: what has been called, and the one about to be, is
   * the undiscarded part of a prefix of what has fired.
   */
  lemma CallsFollowExpiryOrder(s: State, v: Vp) returns (n: nat)
    requires Reachable(s) && v < |s.vps|
    ensures n + |Pipeline(s.vps[v])| == |s.vps[v].fired|
    ensures Outside(s.vps[v].fired[..n], s.discarded) ==
              s.vps[v].ran + if s.vps[v].runner.Calling? then [s.vps[v].runner.b] else []
  {
    VpFacts(s, v);
    n := |s.vps[v].taken|;
    assert s.vps[v].fired[..n] == s.vps[v].taken;
  }

  /** A non-empty expired list always has someone who will see to it. */
  lemma ExpiredIsWatched(s: State, v: Vp)
    requires Reachable(s) && v < |s.vps| && s.vps[v].expired != []
    ensures var r := s.vps[v]; r.handler == Wake || r.events > 0 || r.softirq || r.runner == Swap
  {
    VpFacts(s, v);
  }

  /** With nothing under way on a VP, every function due has been called, in the order of expiry. */
  lemma AllCalledAtRest(s: State, v: Vp)
    requires Reachable(s) && v < |s.vps|
    requires var r := s.vps[v]; r.handler == Quiet && r.runner == Off && r.events == 0 && !r.softirq
    ensures s.vps[v].taken == s.vps[v].fired && s.vps[v].ran == Outside(s.vps[v].fired, s.discarded)
  {
    VpFacts(s, v);
    assert Pipeline(s.vps[v]) == [];
  }

  /**
   * handleEvent finds its base Waiting or Discarded, as it asserts, exactly if the base has not
   * been deleted; otherwise it finds it Reset. Its push never has to retry.
   */
  lemma HandlerAssertionExact(s: State, v: Vp)
    requires Reachable(s) && v < |s.vps|
    ensures var r := s.vps[v];
      && (r.handler.Swing? ==>
            && r.handler.b in s.bases
            && var state := s.bases[r.handler.b].state;
               && (state == Waiting || state == Discarded <==> r.handler.b !in s.frees)
               && (state == Reset <==> r.handler.b in s.frees))
      && (r.handler.Push? ==> Head(r.expired) == r.handler.seen)
  {
    var r := s.vps[v];
    VpFacts(s, v);
    if r.handler.Swing? {
      HomeFacts(s, v, r.handler.b);
      BaseFacts(s, r.handler.b);
    }
  }

  /** runTimer never finds a base still Waiting. */
  lemma RunnerAssertionsHold(s: State, v: Vp)
    requires Reachable(s) && v < |s.vps| && s.vps[v].batch != []
    ensures s.vps[v].batch[0] in s.bases && s.bases[s.vps[v].batch[0]].state != Waiting
  {
    var r := s.vps[v];
    VpFacts(s, v);
    BatchHead(r);
    HomeFacts(s, v, r.batch[0]);
    BaseFacts(s, r.batch[0]);
  }

  // ------------------------------------------------- __mod_timer's null base

  /** The action takes the timer's base away. */
  predicate Disarms(s: State, a: Action, tm: Timer)
    requires Enabled(s, a)
  {
    BaseOf(s, tm).Some? && BaseOf(Apply(s, a), tm).None?
  }

  ghost predicate DisarmedDuring(s: State, actions: seq<Action>, tm: Timer)
    decreases |actions|
  {
    actions != [] && Enabled(s, actions[0])
    && (Disarms(s, actions[0], tm) || DisarmedDuring(Apply(s, actions[0]), actions[1..], tm))
  }

  /** A modifier that waits for the anchors finds its timer's anchor unmoved: `repeat` is never taken. */
  lemma NeverRepeats(s: State, t: Tid)
    requires Reachable(s) && t in s.callers && s.callers[t].at == ModLock
    ensures s.callers[t].timer in s.timers && s.callers[t].oldAnchor == s.timers[s.callers[t].timer].anchor
  {
    ReachableInv(s);
    AnchorUnmoved(s, t);
  }

  /** While a modifier waits for the anchors, others may disarm its timer but none arms it. */
  lemma HeldTimer(s: State, a: Action, t: Tid)
    requires InvCaller(s) && Enabled(s, a) && t in s.callers && s.callers[t].at == ModLock
    requires !(a.StepModifier? && a.t == t)
    ensures var tm := s.callers[t].timer; var s' := Apply(s, a);
      && t in s'.callers && s'.callers[t] == s.callers[t]
      && (BaseOf(s, tm).None? ==> BaseOf(s', tm).None?)
  {
  }

  /** The links and the callers keep themselves. */
  lemma LinksKeep(s: State, a: Action)
    requires InvLink(s) && InvCaller(s) && Enabled(s, a)
    ensures InvLink(Apply(s, a)) && InvCaller(Apply(s, a))
  {
    match a
    case StepHandler(v) => HandlerKeepsLinks(s, v);
    case StepRunner(v) =>
      if Cleans(s.vps[v]) {
        CleanKeepsLink(s, v);
      } else {
        RunnerKeepsLink(s, v);
      }
    case DelTimer(t, _, _) => CallerMovesFreely(s, t, Apply(s, a).callers[t]);
    case StepDeleter(t) => DeleterKeepsLinks(s, t);
    case ModTimer(_, _, _) =>
      ModCallKeepsLink(s, a);
      ModCallKeepsCaller(s, a);
    case StepModifier(t, b) =>
      ModifierKeepsCaller(s, t, b);
      ModifierKeepsLinks(s, t, b);
    case _ =>
  }

  lemma HandlerKeepsLinks(s: State, v: Vp)
    requires InvLink(s) && InvCaller(s) && v < |s.vps|
    ensures InvLink(AfterHandler(s, v)) && InvCaller(AfterHandler(s, v))
  {
    var s' := AfterHandler(s, v);
    assert s'.timers == s.timers && s'.callers == s.callers && |s'.vps| == |s.vps|;
    assert forall b :: b in s.bases ==>
             b in s'.bases && s'.bases[b].timer == s.bases[b].timer && s'.bases[b].vp == s.bases[b].vp;
  }

  lemma DeleterKeepsLinks(s: State, t: Tid)
    requires InvLink(s) && InvCaller(s) && Enabled(s, StepDeleter(t))
    ensures InvLink(AfterDeleter(s, t)) && InvCaller(AfterDeleter(s, t))
  {
    var k := s.callers[t];
    var s1 := s;
    if k.at == DelLock && BaseOf(s, k.timer).Some? {
      s1 := Discard(s, k.timer, k.vp);
      DiscardKeepsLink(s, k.timer, k.vp, s.timers[k.timer].base.value);
    }
    CallerMovesFreely(s1, t, AfterDeleter(s, t).callers[t]);
  }

  lemma ArmLinks(s: State, tm: Timer, v: Vp, x: Base)
    requires InvLink(s) && v < |s.vps| && tm in s.timers && x !in s.bases
    ensures InvLink(Arm(s, tm, v, x))
  {
  }

  lemma ModifierKeepsLinks(s: State, t: Tid, x: Base)
    requires InvLink(s) && InvCaller(s) && Enabled(s, StepModifier(t, x))
    ensures InvLink(AfterModifier(s, t, x))
  {
    var k := s.callers[t];
    AnchorUnmoved(s, t);
    if k.oldAnchor.None? {
      ArmLinks(s, k.timer, k.vp, x);
    } else if BaseOf(s, k.timer).Some? {
      DiscardKeepsLink(s, k.timer, k.oldAnchor.value, s.timers[k.timer].base.value);
      ArmLinks(Discard(s, k.timer, k.oldAnchor.value), k.timer, k.vp, x);
    }
  }

  lemma {:induction false} KeepsDisarmed(s: State, actions: seq<Action>, s': State, t: Tid)
    requires InvLink(s) && InvCaller(s) && Run(s, actions, s')
    requires t in s.callers && s.callers[t].at == ModLock && BaseOf(s, s.callers[t].timer).None?
    requires forall a :: a in actions ==> !(a.StepModifier? && a.t == t)
    ensures t in s'.callers && s'.callers[t] == s.callers[t] && BaseOf(s', s.callers[t].timer).None? && InvCaller(s')
    decreases |actions|
  {
    if actions != [] {
      LinksKeep(s, actions[0]);
      HeldTimer(s, actions[0], t);
      KeepsDisarmed(Apply(s, actions[0]), actions[1..], s', t);
    }
  }

  /** Nobody arms the timer while its modifier waits, whatever runs. */
  lemma StaysDisarmed(s: State, actions: seq<Action>, s': State, t: Tid)
    requires Reachable(s) && Run(s, actions, s')
    requires t in s.callers && s.callers[t].at == ModLock && BaseOf(s, s.callers[t].timer).None?
    requires forall a :: a in actions ==> !(a.StepModifier? && a.t == t)
    ensures t in s'.callers && s'.callers[t] == s.callers[t] && BaseOf(s', s.callers[t].timer).None?
  {
    ReachableInv(s);
    KeepsDisarmed(s, actions, s', t);
  }

  /** The locked section faults exactly if the timer has no base but had an anchor when the call began. */
  lemma SectionFaults(s: State, t: Tid, b: Base)
    requires InvCaller(s) && Enabled(s, StepModifier(t, b)) && s.callers[t].oldAnchor.Some?
    ensures Apply(s, StepModifier(t, b)).fault <==> BaseOf(s, s.callers[t].timer).None?
  {
    AnchorUnmoved(s, t);
  }

  lemma {:induction false} FaultsIffDisarmed(s: State, actions: seq<Action>, s': State, t: Tid, b: Base)
    requires InvLink(s) && InvCaller(s) && Run(s, actions, s')
    requires t in s.callers && s.callers[t].at == ModLock && s.callers[t].oldAnchor.Some?
    requires BaseOf(s, s.callers[t].timer).Some?
    requires forall a :: a in actions ==> !(a.StepModifier? && a.t == t)
    requires Enabled(s', StepModifier(t, b))
    ensures Apply(s', StepModifier(t, b)).fault <==> DisarmedDuring(s, actions, s.callers[t].timer)
    decreases |actions|
  {
    if actions == [] {
      SectionFaults(s, t, b);
    } else {
      var s1 := Apply(s, actions[0]);
      LinksKeep(s, actions[0]);
      HeldTimer(s, actions[0], t);
      if BaseOf(s1, s.callers[t].timer).Some? {
        FaultsIffDisarmed(s1, actions[1..], s', t, b);
      } else {
        KeepsDisarmed(s1, actions[1..], s', t);
        SectionFaults(s', t, b);
      }
    }
  }

  /**
   * Between reading the anchor and getting its lock, __mod_timer holds only the timer's own lock.
   * Its locked section calls locked_discard on a null base exactly if the timer was armed when it
   * started and del_timer or runTimer disarmed it meanwhile.
   */
  lemma ModTimerFaultsIffDisarmed(s: State, actions: seq<Action>, s': State, t: Tid, b: Base)
    requires Reachable(s) && Run(s, actions, s')
    requires t in s.callers && s.callers[t].at == ModLock && s.callers[t].oldAnchor.Some?
    requires BaseOf(s, s.callers[t].timer).Some?
    requires forall a :: a in actions ==> !(a.StepModifier? && a.t == t)
    requires Enabled(s', StepModifier(t, b))
    ensures Apply(s', StepModifier(t, b)).fault <==> DisarmedDuring(s, actions, s.callers[t].timer)
  {
    ReachableInv(s);
    FaultsIffDisarmed(s, actions, s', t, b);
  }

  // ------------------------------------------------- del_timer's stale anchor

  /** Every purge and cleaning list holds bases of its own VP only. */
  ghost predicate ListsAtHome(s: State) {
    forall v, b :: 0 <= v < |s.vps| && (b in s.vps[v].purge || b in s.vps[v].cleaning) ==>
      b in s.bases && s.bases[b].vp == v
  }

  /**
   * A deleter whose timer was moved to another VP after it read the anchor puts the new base on
   * the wrong VP's purge list: its section keeps the lists at home exactly if the anchor is still
   * the timer's, or the base is no longer Waiting.
   */
  lemma DeleterKeepsHomeIffSettled(s: State, t: Tid, x: Base)
    requires Reachable(s) && ListsAtHome(s) && Enabled(s, StepDeleter(t)) && s.callers[t].at == DelLock
    requires s.timers[s.callers[t].timer].base == Some(x)
    ensures x in s.bases
    ensures ListsAtHome(AfterDeleter(s, t)) <==> Settled(s, StepDeleter(t)) || s.bases[x].state != Waiting
  {
    ReachableLinks(s);
    var k, s' := s.callers[t], AfterDeleter(s, t);
    if s.bases[x].state == Waiting && !Settled(s, StepDeleter(t)) {
      assert x in s'.vps[k.vp].purge && s'.bases[x].vp != k.vp;
    }
  }

  lemma ReachableLinks(s: State)
    requires Reachable(s)
    ensures InvLink(s)
  {
    ReachableInv(s);
  }
}
