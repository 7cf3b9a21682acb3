/** What one call of lib/lk/workqueue.C does by the time it returns, whatever runs meanwhile. */
module WorkQueueCalls {
  import opened Prelude
  import opened WorkQueue
  import opened WorkQueueProof
  import opened WorkQueueTheorems

  /** A 64-bit long holds the number modulo 2^64 that is in its range. */
  lemma ToLongExact(x: int)
    ensures -TWO63 <= ToLong(x) < TWO63 && (x - ToLong(x)) % TWO64 == 0
  {
  }

  // ------------------------------------------------- who does what

  /** The step is one of queuer t. */
  predicate StepOf(a: Action, t: Tid) {
    a.StepQueuer? && a.t == t
  }

  /** What the steps of t put on the list of queue d in a run, in order. */
  ghost function AddedBy(first: State, actions: seq<Action>, t: Tid, d: Cpu): seq<Work>
    decreases |actions|
  {
    if actions == [] || !Enabled(first, actions[0]) then []
    else
      var next := Apply(first, actions[0]);
      (if StepOf(actions[0], t) && d < |first.cpus| && d < |next.cpus| then
         Gained(first.cpus[d].added, next.cpus[d].added)
       else [])
      + AddedBy(next, actions[1..], t, d)
  }

  function Gained(before: seq<Work>, after: seq<Work>): seq<Work> {
    if |before| <= |after| then after[|before|..] else []
  }

  /** The works whose timers the steps of t arm. */
  ghost function ArmedBy(first: State, actions: seq<Action>, t: Tid): multiset<Work>
    decreases |actions|
  {
    if actions == [] || !Enabled(first, actions[0]) then multiset{}
    else
      var next := Apply(first, actions[0]);
      (if StepOf(actions[0], t) then multiset(next.armed - first.armed) else multiset{})
      + ArmedBy(next, actions[1..], t)
  }

  // ------------------------------------------------- what a queuer has still to do

  function OwedList(k: Queuer, d: Cpu): seq<Work> {
    if k.c == d && (k.at == Store || k.at == Acquire || k.at == Add) then [k.w] else []
  }

  function OwedTimer(k: Queuer): multiset<Work> {
    if k.at == StoreDelayed || k.at == Arm then multiset{k.w} else multiset{}
  }

  /** A queuer returns true exactly if it was not refused. */
  predicate RetOk(k: Queuer, took: bool) {
    if k.at == Returned then k.ret == took else took && !k.ret
  }

  /** Another's step leaves t alone. */
  lemma OthersLeave(s: State, a: Action, t: Tid)
    requires Enabled(s, a) && t in s.queuers && !StepOf(a, t)
    ensures t in Apply(s, a).queuers && Apply(s, a).queuers[t] == s.queuers[t]
  {
  }

  /** A step of t does what it owes. */
  lemma StepPays(s: State, a: Action, t: Tid, d: Cpu)
    requires Enabled(s, a) && StepOf(a, t) && d < |s.cpus|
    ensures var s' := Apply(s, a);
      && t in s'.queuers && |s'.cpus| == |s.cpus|
      && OwedList(s.queuers[t], d) == Gained(s.cpus[d].added, s'.cpus[d].added) + OwedList(s'.queuers[t], d)
  {
    var s', k := Apply(s, a), s.queuers[t];
    if k.at == Add && k.c == d {
      assert s'.cpus[d].added[|s.cpus[d].added|..] == [k.w];
    } else {
      assert s'.cpus[d].added == s.cpus[d].added;
    }
  }

  lemma ListLength(s: State, a: Action)
    requires Enabled(s, a)
    ensures |Apply(s, a).cpus| == |s.cpus|
  {
  }

  /** What t has put on the list and what it owes together stay the same. */
  lemma {:induction false} ListPaid(first: State, actions: seq<Action>, last: State, t: Tid, d: Cpu)
    requires Run(first, actions, last) && t in first.queuers && d < |first.cpus|
    ensures t in last.queuers
    ensures OwedList(first.queuers[t], d) == AddedBy(first, actions, t, d) + OwedList(last.queuers[t], d)
    decreases |actions|
  {
    if actions != [] {
      var next := Apply(first, actions[0]);
      ListLength(first, actions[0]);
      if StepOf(actions[0], t) {
        StepPays(first, actions[0], t, d);
      } else {
        OthersLeave(first, actions[0], t);
      }
      ListPaid(next, actions[1..], last, t, d);
    }
  }

  /** A queuer that has returned owes nothing. */
  lemma ReturnedPaid(first: State, actions: seq<Action>, last: State, t: Tid, d: Cpu)
    requires Run(first, actions, last) && t in first.queuers && d < |first.cpus|
    requires t in last.queuers && last.queuers[t].at == Returned
    ensures AddedBy(first, actions, t, d) == OwedList(first.queuers[t], d)
  {
    ListPaid(first, actions, last, t, d);
    assert AddedBy(first, actions, t, d) + [] == AddedBy(first, actions, t, d);
  }

  lemma StepKeepsRet(s: State, a: Action, t: Tid, took: bool)
    requires Enabled(s, a) && t in s.queuers && RetOk(s.queuers[t], took)
    ensures t in Apply(s, a).queuers && RetOk(Apply(s, a).queuers[t], took)
  {
    if !StepOf(a, t) {
      OthersLeave(s, a, t);
    }
  }

  lemma {:induction false} RunKeepsRet(first: State, actions: seq<Action>, last: State, t: Tid, took: bool)
    requires Run(first, actions, last) && t in first.queuers && RetOk(first.queuers[t], took)
    ensures t in last.queuers && RetOk(last.queuers[t], took)
    decreases |actions|
  {
    if actions != [] {
      StepKeepsRet(first, actions[0], t, took);
      RunKeepsRet(Apply(first, actions[0]), actions[1..], last, t, took);
    }
  }

  // ------------------------------------------------- queue_work

  /** Both calls: accepted exactly if the pending bit was clear, and a call refused has returned. */
  lemma AcceptedIffNotPending(s: State, a: Action)
    requires Enabled(s, a) && (a.QueueWork? || a.QueueDelayedWork?)
    ensures var s' := Apply(s, a);
      && a.t in s'.queuers && a.w in s'.pending
      && (s'.queuers[a.t].at == Returned <==> a.w in s.pending)
      && s'.accepted[a.w] == s.accepted[a.w] + (if a.w in s.pending then 0 else 1)
  {
  }

  /** What the call owes when it has been made. */
  lemma CallOwes(s: State, a: Action, d: Cpu)
    requires Enabled(s, a) && (a.QueueWork? || a.QueueDelayedWork?)
    ensures var k, took := Apply(s, a).queuers[a.t], a.w !in s.pending;
      && OwedList(k, d) == (if took && a.QueueWork? && d == a.c then [a.w] else [])
      && OwedTimer(k) == (if took && a.QueueDelayedWork? then multiset{a.w} else multiset{})
      && RetOk(k, took) && |Apply(s, a).cpus| == |s.cpus|
  {
    var at := if a.QueueWork? then Store else StoreDelayed;
    assert Apply(s, a) == Begin(s, a.t, a.w, a.c, at);
    BeginsAt(s, a.t, a.w, a.c, at);
  }

  lemma BeginsAt(s: State, t: Tid, w: Work, c: Cpu, at: QueuerAt)
    ensures var s' := Begin(s, t, w, c, at);
      && t in s'.queuers && s'.queuers[t] == Queuer(if w in s.pending then Returned else at, w, c, false)
      && s'.cpus == s.cpus
  {
  }

  /**
   * By the time queue_work returns, it has put the work on the list of its own queue, once, and
   * on no other, and returns true, if the pending bit was clear when it was called; otherwise it
   * has put nothing anywhere, and returns false.
   */
  lemma QueueWorkAdds(s: State, t: Tid, w: Work, c: Cpu, actions: seq<Action>, s': State, d: Cpu)
    requires Reachable(s) && Enabled(s, QueueWork(t, w, c)) && d < |s.cpus|
    requires Run(Apply(s, QueueWork(t, w, c)), actions, s') && t in s'.queuers && s'.queuers[t].at == Returned
    ensures AddedBy(Apply(s, QueueWork(t, w, c)), actions, t, d) == if w !in s.pending && d == c then [w] else []
    ensures s'.queuers[t].ret <==> w !in s.pending
  {
    var called := Apply(s, QueueWork(t, w, c));
    CallOwes(s, QueueWork(t, w, c), d);
    ReturnedPaid(called, actions, s', t, d);
    RunKeepsRet(called, actions, s', t, w !in s.pending);
  }

  /** So an accepted work is among those added since, and is never lost: what is added is completed at rest. */
  lemma {:induction false} AddedByIsAdded(first: State, actions: seq<Action>, last: State, t: Tid, c: Cpu, w: Work)
    requires Run(first, actions, last) && c < |first.cpus| && w in AddedBy(first, actions, t, c)
    ensures |last.cpus| == |first.cpus| && |first.cpus[c].added| <= |last.cpus[c].added|
    ensures w in last.cpus[c].added[|first.cpus[c].added|..]
    decreases |actions|
  {
    RunIsLater(first, actions, last);
    var next := Apply(first, actions[0]);
    StepIsLater(first, actions[0]);
    RunIsLater(next, actions[1..], last);
    if w in AddedBy(next, actions[1..], t, c) {
      AddedByIsAdded(next, actions[1..], last, t, c, w);
    } else {
      assert w in Gained(first.cpus[c].added, next.cpus[c].added);
    }
    GainedStays(first.cpus[c].added, next.cpus[c].added, last.cpus[c].added, w);
  }

  lemma GainedStays(a: seq<Work>, b: seq<Work>, c: seq<Work>, w: Work)
    requires a <= b <= c && (w in b[|a|..] || w in c[|b|..])
    ensures w in c[|a|..]
  {
    assert c[|a|..] == b[|a|..] + c[|b|..];
  }

  /** A work accepted by queue_work has been completed by the time everything is at rest again. */
  lemma QueuedWorkCompletes(s: State, t: Tid, w: Work, c: Cpu, actions: seq<Action>, s': State)
    requires Reachable(s) && Enabled(s, QueueWork(t, w, c)) && w !in s.pending
    requires Run(Apply(s, QueueWork(t, w, c)), actions, s') && AtRest(s')
    ensures c < |s.cpus| == |s'.cpus| && |s.cpus[c].added| <= |s'.cpus[c].completed|
    ensures w in s'.cpus[c].completed[|s.cpus[c].added|..]
  {
    var called := Apply(s, QueueWork(t, w, c));
    var _ := ReachableInv(s);
    ReachableAfter(s, QueueWork(t, w, c), actions, s');
    ListPaid(called, actions, s', t, c);
    QueueWorkAdds(s, t, w, c, actions, s', c);
    AddedByIsAdded(called, actions, s', t, c, w);
    AllRunAtRest(s', c);
  }

  // ------------------------------------------------- queue_delayed_work and its timer

  lemma ArmingIsNew(s: State, t: Tid)
    requires Reachable(s) && t in s.queuers && s.queuers[t].at == Arm
    ensures s.queuers[t].w !in s.armed && s.queuers[t].w in s.wqData && s.wqData[s.queuers[t].w] == s.queuers[t].c
  {
    var g := ReachableInv(s);
    var w := s.queuers[t].w;
    assert At(s, w, WithQueuer(t));
    assert !At(s, w, OnTimer);
    assert Bound(s, w, WithQueuer(t));
  }

  lemma StepArms(s: State, a: Action, t: Tid)
    requires Reachable(s) && Enabled(s, a) && StepOf(a, t)
    ensures var s' := Apply(s, a);
      t in s'.queuers && OwedTimer(s.queuers[t]) == multiset(s'.armed - s.armed) + OwedTimer(s'.queuers[t])
  {
    var s', k := Apply(s, a), s.queuers[t];
    if k.at == Arm {
      ArmingIsNew(s, t);
      assert s'.armed - s.armed == {k.w};
    } else {
      assert s'.armed - s.armed == {};
    }
  }

  lemma ReachableNext(s: State, a: Action)
    requires Reachable(s) && Enabled(s, a)
    ensures Reachable(Apply(s, a))
  {
    ReachableAfter(s, a, [], Apply(s, a));
  }

  lemma {:induction false} TimerPaid(first: State, actions: seq<Action>, last: State, t: Tid)
    requires Reachable(first) && Run(first, actions, last) && t in first.queuers
    ensures t in last.queuers
    ensures OwedTimer(first.queuers[t]) == ArmedBy(first, actions, t) + OwedTimer(last.queuers[t])
    decreases |actions|
  {
    if actions != [] {
      var next := Apply(first, actions[0]);
      ReachableNext(first, actions[0]);
      if StepOf(actions[0], t) {
        StepArms(first, actions[0], t);
      } else {
        OthersLeave(first, actions[0], t);
      }
      TimerPaid(next, actions[1..], last, t);
    }
  }

  /**
   * By the time queue_delayed_work returns, it has armed the work's timer, once, and returns
   * true, if the pending bit was clear when it was called; otherwise it has armed nothing, and
   * returns false.
   */
  lemma QueueDelayedWorkArms(s: State, t: Tid, w: Work, c: Cpu, actions: seq<Action>, s': State)
    requires Reachable(s) && Enabled(s, QueueDelayedWork(t, w, c))
    requires Run(Apply(s, QueueDelayedWork(t, w, c)), actions, s') && t in s'.queuers && s'.queuers[t].at == Returned
    ensures ArmedBy(Apply(s, QueueDelayedWork(t, w, c)), actions, t) ==
            if w in s.pending then multiset{} else multiset{w}
    ensures s'.queuers[t].ret <==> w !in s.pending
  {
    var called := Apply(s, QueueDelayedWork(t, w, c));
    CallOwes(s, QueueDelayedWork(t, w, c), c);
    ReachableNext(s, QueueDelayedWork(t, w, c));
    TimerPaid(called, actions, s', t);
    RunKeepsRet(called, actions, s', t, w !in s.pending);
  }

  /** It puts nothing on a list itself. */
  lemma QueueDelayedWorkWaits(s: State, t: Tid, w: Work, c: Cpu, actions: seq<Action>, s': State, d: Cpu)
    requires Enabled(s, QueueDelayedWork(t, w, c)) && d < |s.cpus|
    requires Run(Apply(s, QueueDelayedWork(t, w, c)), actions, s')
    ensures AddedBy(Apply(s, QueueDelayedWork(t, w, c)), actions, t, d) == []
  {
    CallOwes(s, QueueDelayedWork(t, w, c), d);
    ListPaid(Apply(s, QueueDelayedWork(t, w, c)), actions, s', t, d);
  }

  /** The step that arms the timer leaves it armed for the queue of the call. */
  lemma ArmsForItsQueue(s: State, t: Tid, worker: Tid)
    requires Reachable(s) && Enabled(s, StepQueuer(t, worker)) && s.queuers[t].at == Arm
    ensures var s', k := Apply(s, StepQueuer(t, worker)), s.queuers[t];
      s'.queuers[t].at == Returned && k.w in s'.armed && k.w in s'.wqData && s'.wqData[k.w] == k.c
  {
    ArmingIsNew(s, t);
  }

  /** While the timer is armed nobody changes the queue it is for. */
  lemma ArmedKeepsQueue(s: State, a: Action, w: Work)
    requires Reachable(s) && Enabled(s, a) && w in s.armed
    ensures w in s.wqData && w in Apply(s, a).wqData && Apply(s, a).wqData[w] == s.wqData[w]
  {
    var g := ReachableInv(s);
    assert At(s, w, OnTimer);
    assert Bound(s, w, OnTimer);
    if a.StepQueuer? && (s.queuers[a.t].at == Store || s.queuers[a.t].at == StoreDelayed) && s.queuers[a.t].w == w {
      assert At(s, w, WithQueuer(a.t));
    }
  }

  /** By the time the timer function returns, it has put the work on the list of that queue, once, and on no other. */
  lemma TimerExpiryAdds(s: State, t: Tid, w: Work, actions: seq<Action>, s': State, d: Cpu)
    requires Reachable(s) && Enabled(s, TimerExpires(t, w)) && d < |s.cpus|
    requires Run(Apply(s, TimerExpires(t, w)), actions, s') && t in s'.queuers && s'.queuers[t].at == Returned
    ensures w !in Apply(s, TimerExpires(t, w)).armed
    ensures AddedBy(Apply(s, TimerExpires(t, w)), actions, t, d) == if d == s.wqData[w] then [w] else []
  {
    ReturnedPaid(Apply(s, TimerExpires(t, w)), actions, s', t, d);
  }
}
