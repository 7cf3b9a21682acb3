/** Runs of the timer code that go wrong. */
module TimerRuns {
  import opened Prelude
  import opened Timers
  import opened TimerTheorems

  const IDLE := VpRec({}, [], [], Quiet, Off, [], [], [], 0, false, [], [], [])
  const FREE := TimerRec(None, None, None)
  const TWO_VPS := State(map[], map[0 := FREE, 1 := FREE], [IDLE, IDLE], map[], {}, multiset{}, map[], false)

  lemma BeginsReachable()
    ensures Reachable(TWO_VPS)
  {
    assert Init(TWO_VPS) && Run(TWO_VPS, [], TWO_VPS);
  }

  lemma HandlerStep(s: State, v: Vp) returns (s': State)
    requires Reachable(s) && Enabled(s, StepHandler(v))
    ensures Reachable(s') && !s'.fault && s'.timers == s.timers
    ensures s'.vps == s.vps[v := HandlerNext(s.vps[v], IsWaiting(s, s.vps[v]))]
    ensures !IsWaiting(s, s.vps[v]) ==> s'.bases == s.bases
    ensures IsWaiting(s, s.vps[v]) ==>
              var b := s.vps[v].handler.b; s'.bases == s.bases[b := s.bases[b].(state := Fired)]
  {
    ReachableStep(s, StepHandler(v));
    s' := Apply(s, StepHandler(v));
  }

  lemma RunnerStep(s: State, v: Vp) returns (s': State)
    requires Reachable(s) && Enabled(s, StepRunner(v)) && !Cleans(s.vps[v])
    ensures Reachable(s') && !s'.fault && s'.bases == s.bases
    ensures s'.vps == s.vps[v := RunnerNext(s.vps[v], Calls(s, s.vps[v]))]
  {
    ReachableStep(s, StepRunner(v));
    s' := Apply(s, StepRunner(v));
  }

  /** __mod_timer takes the lock of a timer that nobody holds. */
  lemma HoldStep(s: State, t: Tid, tm: Timer, v: Vp) returns (s': State)
    requires Reachable(s) && !s.fault && t !in s.callers && tm in s.timers && v < |s.vps|
    requires s.timers[tm].owner.None? && (s.timers[tm].base.None? ==> s.timers[tm].anchor.None?)
    ensures Reachable(s')
    ensures s' == s.(timers := s.timers[tm := s.timers[tm].(owner := Some(t))],
                     callers := s.callers[t := Caller(ModLock, tm, v, false, s.timers[tm].anchor, false)])
  {
    ReachableStep(s, ModTimer(t, tm, v));
    s' := Apply(s, ModTimer(t, tm, v));
  }

  /** A timer that nobody holds is armed on `v`, where its old base, if any, was. */
  lemma ArmStep(s: State, t: Tid, tm: Timer, v: Vp, x: Base) returns (s': State)
    requires Reachable(s) && !s.fault && t !in s.callers && tm in s.timers && s.timers[tm] == FREE
    requires v < |s.vps| && x !in s.bases
    ensures Reachable(s') && !s'.fault && s'.callers.Keys == s.callers.Keys + {t}
    ensures forall u :: u in s.callers ==> s'.callers[u] == s.callers[u]
    ensures s'.bases == s.bases[x := BaseRec(Waiting, Some(tm), v)]
    ensures s'.timers == s.timers[tm := TimerRec(Some(x), Some(v), None)]
    ensures s'.vps == s.vps[v := s.vps[v].(scheduled := s.vps[v].scheduled + {x})]
  {
    var s1 := HoldStep(s, t, tm, v);
    ReachableStep(s1, StepModifier(t, x));
    s' := Apply(s1, StepModifier(t, x));
    assert s'.timers == s.timers[tm := TimerRec(Some(x), Some(v), None)];
  }

  /** An armed timer is moved to another VP. */
  lemma MoveStep(s: State, t: Tid, tm: Timer, v: Vp, x: Base, b: Base, a: Vp) returns (s': State)
    requires Reachable(s) && !s.fault && t !in s.callers
    requires tm in s.timers && s.timers[tm] == TimerRec(Some(b), Some(a), None)
    requires v < |s.vps| && a < |s.vps| && a != v && x !in s.bases
    requires b in s.bases && s.bases[b] == BaseRec(Waiting, Some(tm), a)
    ensures Reachable(s') && !s'.fault && s'.callers.Keys == s.callers.Keys + {t}
    ensures forall u :: u in s.callers ==> s'.callers[u] == s.callers[u]
    ensures s'.bases.Keys == s.bases.Keys + {x} && s'.bases[x] == BaseRec(Waiting, Some(tm), v)
    ensures s'.timers == s.timers[tm := TimerRec(Some(x), Some(v), None)]
    ensures s'.vps == s.vps[a := s.vps[a].(purge := [b] + s.vps[a].purge)]
                           [v := s.vps[v].(scheduled := s.vps[v].scheduled + {x})]
  {
    var s1 := HoldStep(s, t, tm, v);
    ReachableStep(s1, StepModifier(t, x));
    s' := Apply(s1, StepModifier(t, x));
    assert s'.timers == s.timers[tm := TimerRec(Some(x), Some(v), None)];
  }

  /** del_timer reads the anchor and finds the timer armed. */
  lemma LookStep(s: State, t: Tid, tm: Timer, b: Base, a: Vp) returns (s': State)
    requires Reachable(s) && !s.fault && t !in s.callers && tm in s.timers && a < |s.vps|
    requires s.timers[tm].base == Some(b) && s.timers[tm].anchor == Some(a)
    ensures Reachable(s') && s' == s.(callers := s.callers[t := Caller(DelLock, tm, a, false, None, false)])
  {
    ReachableStep(s, DelTimer(t, tm, false));
    var s1 := Apply(s, DelTimer(t, tm, false));
    ReachableStep(s1, StepDeleter(t));
    s' := Apply(s1, StepDeleter(t));
    assert s'.callers == s.callers[t := Caller(DelLock, tm, a, false, None, false)];
  }

  /** Timer 0 is armed on VP 0. */
  lemma Armed() returns (s: State)
    ensures Reachable(s) && !s.fault && s.callers.Keys == {0}
    ensures s.vps == TWO_VPS.vps[0 := IDLE.(scheduled := {0})]
    ensures s.bases == map[0 := BaseRec(Waiting, Some(0), 0)]
    ensures s.timers.Keys == {0, 1} && s.timers[0] == TimerRec(Some(0), Some(0), None) && s.timers[1] == FREE
  {
    BeginsReachable();
    s := ArmStep(TWO_VPS, 0, 0, 0, 0);
    assert {} + {0} == {0};
  }

  /** A deleter has read VP 0's anchor, and the timer is on VP 1. */
  lemma TimerMoved() returns (s: State)
    ensures Reachable(s) && !s.fault && s.callers.Keys == {0, 1, 2} && |s.vps| == 2
    ensures s.callers[1] == Caller(DelLock, 0, 0, false, None, false)
    ensures s.vps[0] == IDLE.(scheduled := {0}, purge := [0]) && s.vps[1] == IDLE.(scheduled := {1})
    ensures s.bases.Keys == {0, 1} && s.bases[1] == BaseRec(Waiting, Some(0), 1)
    ensures s.timers.Keys == {0, 1} && s.timers[0] == TimerRec(Some(1), Some(1), None) && s.timers[1] == FREE
  {
    var s0 := Armed();
    var s1 := LookStep(s0, 1, 0, 0, 0);
    s := MoveStep(s1, 2, 0, 1, 1, 0, 0);
    assert {} + {1} == {1};
  }

  /** The deleter leaves VP 0 with VP 1's scheduled base on its purge list: the timer was moved meanwhile. */
  lemma UnsettledDeleteMisfiles() returns (s: State)
    ensures Reachable(s) && !s.fault && s.callers.Keys == {0, 1, 2} && |s.vps| == 2
    ensures s.vps[0] == IDLE.(scheduled := {0}, purge := [1, 0]) && s.vps[1] == IDLE.(scheduled := {1})
    ensures s.bases.Keys == {0, 1} && s.bases[1].vp == 1 && 1 in s.timers && s.timers[1] == FREE
  {
    var s0 := TimerMoved();
    ReachableStep(s0, StepDeleter(1));
    s := Apply(s0, StepDeleter(1));
  }

  /** Timer 1 is armed on VP 0 and expires there. */
  lemma SecondExpires() returns (s: State)
    ensures Reachable(s) && !s.fault && s.bases.Keys == {0, 1, 2} && s.bases[1].vp == 1 && |s.vps| == 2
    ensures s.vps[0].handler == Swing(2) && s.vps[0] == IDLE.(scheduled := {0}, purge := [1, 0], handler := Swing(2))
    ensures s.vps[1] == IDLE.(scheduled := {1}) && s.bases[2] == BaseRec(Waiting, Some(1), 0)
  {
    var s0 := UnsettledDeleteMisfiles();
    var s1 := ArmStep(s0, 3, 1, 0, 2);
    ReachableStep(s1, Expire(0, 2));
    s := Apply(s1, Expire(0, 2));
    assert s.vps[0].scheduled == {0};
  }

  /** handleEvent on VP 0 is about to push it. */
  lemma SecondFires() returns (s: State)
    ensures Reachable(s) && !s.fault && s.bases.Keys == {0, 1, 2} && s.bases[1].vp == 1 && |s.vps| == 2
    ensures s.vps[0] == IDLE.(scheduled := {0}, purge := [1, 0], handler := Push(2, None), fired := [2])
    ensures s.vps[1] == IDLE.(scheduled := {1}) && s.bases[2] == BaseRec(Fired, Some(1), 0)
  {
    var s0 := SecondExpires();
    var s1 := HandlerStep(s0, 0);
    s := HandlerStep(s1, 0);
  }

  /** It pushes it and schedules Event. */
  lemma SecondPushed() returns (s: State)
    ensures Reachable(s) && !s.fault && s.bases.Keys == {0, 1, 2} && s.bases[1].vp == 1 && |s.vps| == 2
    ensures s.vps[0] == IDLE.(scheduled := {0}, purge := [1, 0], expired := [2], fired := [2], events := 1)
    ensures s.vps[1] == IDLE.(scheduled := {1}) && s.bases[2] == BaseRec(Fired, Some(1), 0)
  {
    var s0 := SecondFires();
    var s1 := HandlerStep(s0, 0);
    s := HandlerStep(s1, 0);
  }

  lemma RunnerStarts() returns (s: State)
    ensures Reachable(s) && !s.fault && s.bases.Keys == {0, 1, 2} && s.bases[1].vp == 1 && |s.vps| == 2
    ensures s.vps[0] == IDLE.(scheduled := {0}, purge := [1, 0], expired := [2], fired := [2], runner := Swap)
    ensures s.vps[1] == IDLE.(scheduled := {1}) && s.bases[2] == BaseRec(Fired, Some(1), 0)
  {
    var s0 := SecondPushed();
    ReachableStep(s0, RunEvent(0));
    var s1 := Apply(s0, RunEvent(0));
    ReachableStep(s1, StartRun(0));
    s := Apply(s1, StartRun(0));
  }

  /** runTimer on VP 0 has its batch. */
  lemma BatchTaken() returns (s: State)
    ensures Reachable(s) && !s.fault && s.bases.Keys == {0, 1, 2} && s.bases[1].vp == 1 && |s.vps| == 2
    ensures s.vps[0] == IDLE.(scheduled := {0}, purge := [1, 0], batch := [2], fired := [2], runner := Loop)
    ensures s.vps[1] == IDLE.(scheduled := {1}) && s.bases[2] == BaseRec(Fired, Some(1), 0)
  {
    var s0 := RunnerStarts();
    var s1 := RunnerStep(s0, 0);
    s := RunnerStep(s1, 0);
    assert s.vps[0].batch == [2];
  }

  /** It has called the function of timer 1. */
  lemma SecondCalled() returns (s: State)
    ensures Reachable(s) && !s.fault && s.bases.Keys == {0, 1, 2} && s.bases[1].vp == 1 && |s.vps| == 2
    ensures s.vps[0].runner == Reap(2) && s.vps[0].batch == [] && s.vps[0].purge == [1, 0] && s.vps[0].handler == Quiet
    ensures s.vps[1] == IDLE.(scheduled := {1})
  {
    var s0 := BatchTaken();
    var s1 := RunnerStep(s0, 0);
    s := RunnerStep(s1, 0);
  }

  lemma BatchDone() returns (s: State)
    ensures Reachable(s) && !s.fault && |s.vps| == 2 && s.bases.Keys == {0, 1, 2} && s.bases[1].vp == 1
    ensures s.vps[0].runner == CleanTest && s.vps[0].purge == [1, 0] && s.vps[0].handler == Quiet
    ensures s.vps[1] == IDLE.(scheduled := {1})
  {
    var s0 := SecondCalled();
    var s1 := RunnerStep(s0, 0);
    s := RunnerStep(s1, 0);
  }

  lemma CleanUpBegins() returns (s: State)
    ensures Reachable(s) && !s.fault && |s.vps| == 2 && s.bases.Keys == {0, 1, 2} && s.bases[1].vp == 1
    ensures s.vps[0].runner == Clean && s.vps[0].cleaning == [1, 0] && s.vps[0].handler == Quiet
    ensures s.vps[1] == IDLE.(scheduled := {1})
  {
    var s0 := BatchDone();
    var s1 := RunnerStep(s0, 0);
    s := RunnerStep(s1, 0);
  }

  /** cleanUp on VP 0 has taken its purge list, and VP 1's handleEvent has been entered for base 1. */
  lemma HandlerEntered() returns (s: State)
    ensures Reachable(s) && !s.fault && |s.vps| == 2 && 1 in s.bases && s.bases[1].vp == 1
    ensures s.vps[0].runner == Clean && s.vps[0].cleaning == [1, 0] && s.vps[0].handler == Quiet
    ensures s.vps[1].handler == Swing(1)
  {
    var s0 := CleanUpBegins();
    ReachableStep(s0, Expire(1, 1));
    s := Apply(s0, Expire(1, 1));
  }

  /** cleanUp on VP 0 then deletes base 1 under VP 1's handleEvent, whose assertion fails next. */
  lemma UnsettledDeleteFreesReached() returns (s: State)
    ensures Reachable(s) && 1 in s.frees && |s.vps| == 2 && s.vps[1].handler == Swing(1)
    ensures 1 in s.bases && s.bases[1].state == Reset
  {
    var s0 := HandlerEntered();
    ReachableStep(s0, StepRunner(0));
    s := Apply(s0, StepRunner(0));
    HandlersKept(s0, 0, 1);
  }

  /** A modifier on VP 1 waits for the anchors, and a deleter has read VP 0's. */
  lemma ModifierWaits() returns (s: State)
    ensures Reachable(s) && !s.fault && |s.vps| == 2 && s.bases == map[0 := BaseRec(Waiting, Some(0), 0)]
    ensures s.callers.Keys == {0, 1, 2} && s.callers[1] == Caller(ModLock, 0, 1, false, Some(0), false)
    ensures s.callers[2] == Caller(DelLock, 0, 0, false, None, false)
    ensures s.timers.Keys == {0, 1} && s.timers[0] == TimerRec(Some(0), Some(0), Some(1))
  {
    var s0 := Armed();
    ReachableStep(s0, ModTimer(1, 0, 1));
    var s1 := Apply(s0, ModTimer(1, 0, 1));
    s := LookStep(s1, 2, 0, 0, 0);
  }

  /** A modifier whose timer is deleted while it waits for the anchors faults. */
  lemma ModTimerFaults() returns (s: State)
    ensures Reachable(s) && s.fault
  {
    var s0 := ModifierWaits();
    ReachableStep(s0, StepDeleter(2));
    var s1 := Apply(s0, StepDeleter(2));
    ReachableStep(s1, StepModifier(1, 7));
    s := Apply(s1, StepModifier(1, 7));
  }
}
