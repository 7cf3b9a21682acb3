/** The promises of lib/lk/workqueue.C, over every run. */
module WorkQueueTheorems {
  import opened Prelude
  import opened WorkQueue
  import opened WorkQueueProof

  /**
   * No work is stranded.  Whenever a worklist is non-empty, its thread marker is set,
   * or a queuer is between its list add and its compare-and-store, or a worker is
   * between clearing the marker and finishing its recheck.
   */
  lemma NoWorkStranded(s: State, c: Cpu)
    requires Reachable(s) && c < |s.cpus| && s.cpus[c].worklist != []
    ensures Attended(s, c)
  {
    var _ := ReachableInv(s);
  }

  /** The marker is set exactly while the queue has a worker, and a queue never has two. */
  lemma OneWorkerPerQueue(s: State, c: Cpu)
    requires Reachable(s) && c < |s.cpus|
    ensures s.cpus[c].thread != Clear <==> exists t :: Serving(s, t, c)
    ensures forall t, u :: Serving(s, t, c) && Serving(s, u, c) ==> t == u
  {
    var g := ReachableInv(s);
    assert s.cpus[c].thread == MarkerFor(s, g, c);
    assert c in g.server ==> Serving(s, g.server[c], c);
  }

  /** A step of a thread that runs the code of queue `c`. */
  ghost predicate CanMove(s: State, c: Cpu) {
    || (exists t :: QueuerReady(s, t) && s.queuers[t].c == c)
    || (exists t :: WorkerReady(s, t) && s.workers[t].c == c)
    || (exists t :: FlusherReady(s, t) && s.flushers[t].c == c)
  }

  /** The thread, of that kind, is at queue `c` and can take its next step. */
  ghost predicate CanStep(s: State, h: Holder, c: Cpu) {
    match h
    case ByQueuer(t) => QueuerReady(s, t) && s.queuers[t].c == c
    case ByWorker(t) => WorkerReady(s, t) && s.workers[t].c == c
    case ByFlusher(t) => FlusherReady(s, t) && s.flushers[t].c == c
  }

  /** Whoever holds a queue's lock can go on, so the lock never wedges the queue. */
  lemma HolderMoves(s: State, c: Cpu)
    requires Reachable(s) && c < |s.cpus| && s.cpus[c].lock.Some?
    ensures CanStep(s, s.cpus[c].lock.value, c) && CanMove(s, c)
  {
    var _ := ReachableInv(s);
    assert Holding(s, s.cpus[c].lock.value, c);
  }

  /** While work is waiting, some thread of that queue can take a step. */
  lemma NeverWedged(s: State, c: Cpu)
    requires Reachable(s) && c < |s.cpus| && s.cpus[c].worklist != []
    ensures CanMove(s, c)
  {
    var g := ReachableInv(s);
    if s.cpus[c].lock.Some? {
      HolderMoves(s, c);
    } else if s.cpus[c].thread != Clear {
      assert s.cpus[c].thread == MarkerFor(s, g, c);
      assert Serving(s, g.server[c], c);
      assert WorkerReady(s, g.server[c]);
    } else {
      assert Attended(s, c);
      if t :| t in s.queuers && s.queuers[t].c == c && (s.queuers[t].at == Count || s.queuers[t].at == Cas) {
        assert QueuerReady(s, t);
      } else if t :| t in s.workers && s.workers[t].c == c && (s.workers[t].at == Recheck || s.workers[t].at == Recas) {
        assert WorkerReady(s, t);
      }
    }
  }

  ghost predicate AtRest(s: State) {
    && (forall t :: t in s.queuers ==> s.queuers[t].at == Returned)
    && (forall t :: t in s.workers ==> s.workers[t].at == Exited)
  }

  /** Once every queuer and worker has returned, everything added has run, in order. */
  lemma AllRunAtRest(s: State, c: Cpu)
    requires Reachable(s) && AtRest(s) && c < |s.cpus|
    ensures s.cpus[c].worklist == [] && s.cpus[c].completed == s.cpus[c].added
  {
    var g := ReachableInv(s);
    assert s.cpus[c].thread == MarkerFor(s, g, c);
    assert c in g.server ==> Serving(s, g.server[c], c);
    assert s.cpus[c].worklist != [] ==> Attended(s, c);
    assert s.cpus[c].added == s.cpus[c].completed + InHand(s, g, c) + s.cpus[c].worklist;
  }

  // ------------------------------------------------------------ sleeping

  /** A flusher asleep on a queue found work outstanding there, and no work has been finished there since. */
  ghost predicate InvSleep(s: State) {
    forall c, t :: 0 <= c < |s.cpus| && t in s.cpus[c].asleep ==>
      && t in s.flushers && s.flushers[t].at == Resume && s.flushers[t].c == c
      && ToLong(s.flushers[t].needed - s.cpus[c].removeSequence) > 0
  }

  /** The step leaves remove_sequence, wait queues and flushers alone, or wakes everyone. */
  lemma WorkerKeepsSleep(s: State, t: Tid)
    requires InvSleep(s) && WorkerReady(s, t)
    ensures InvSleep(AfterWorker(s, t))
  {
    var s', k := AfterWorker(s, t), s.workers[t];
    forall c, u | 0 <= c < |s'.cpus| && u in s'.cpus[c].asleep
      ensures u in s.cpus[c].asleep && s'.cpus[c].removeSequence == s.cpus[c].removeSequence
    {
      assert c == k.c ==> s'.cpus[c] == QueueAfterWorker(s.cpus[c], t, k);
    }
  }

  lemma QueuerKeepsSleep(s: State, t: Tid, worker: Tid)
    requires InvSleep(s) && QueuerReady(s, t)
    ensures InvSleep(AfterQueuer(s, t, worker))
  {
  }

  lemma FlusherKeepsSleep(s: State, t: Tid)
    requires InvSleep(s) && FlusherReady(s, t)
    ensures InvSleep(AfterFlusher(s, t))
  {
  }

  lemma CallKeepsSleep(s: State, a: Action)
    requires InvSleep(s) && Enabled(s, a) && !a.StepQueuer? && !a.StepWorker? && !a.StepFlusher?
    ensures InvSleep(Apply(s, a))
  {
    var s' := Apply(s, a);
    assert s'.cpus == s.cpus && forall t :: t in s.flushers ==> t in s'.flushers && s'.flushers[t] == s.flushers[t];
  }

  lemma StepKeepsSleep(s: State, a: Action)
    requires InvSleep(s) && Enabled(s, a)
    ensures InvSleep(Apply(s, a))
  {
    match a
    case StepQueuer(t, worker) => QueuerKeepsSleep(s, t, worker);
    case StepWorker(t) => WorkerKeepsSleep(s, t);
    case StepFlusher(t) => FlusherKeepsSleep(s, t);
    case _ => CallKeepsSleep(s, a);
  }

  lemma {:induction false} RunKeepsSleep(s: State, actions: seq<Action>, s': State)
    requires InvSleep(s) && Run(s, actions, s')
    ensures InvSleep(s')
    decreases |actions|
  {
    if actions != [] {
      StepKeepsSleep(s, actions[0]);
      RunKeepsSleep(Apply(s, actions[0]), actions[1..], s');
    }
  }

  lemma ReachableSleep(s: State)
    requires Reachable(s)
    ensures InvSleep(s)
  {
    var first, actions :| Init(first) && Run(first, actions, s);
    RunKeepsSleep(first, actions, s);
  }

  lemma FlusherFacts(s: State, t: Tid)
    requires Reachable(s) && t in s.flushers && (s.flushers[t].at == Compare || s.flushers[t].at == Resume)
    ensures var f := s.flushers[t];
      && f.c < |s.cpus| && f.sampled <= |s.cpus[f.c].added| && f.needed == ToLong(f.sampled)
      && s.cpus[f.c].removeSequence == ToLong(|s.cpus[f.c].completed|)
  {
    var _ := ReachableInv(s);
    assert FlusherOk(s, s.flushers[t]);
  }

  /**
   * No wake-up is lost: a flusher asleep still has work to wait for, unless 2^63 works went by
   * since it sampled the queue.
   */
  lemma SleeperHasWork(s: State, t: Tid, c: Cpu)
    requires Reachable(s) && c < |s.cpus| && t in s.cpus[c].asleep
    ensures t in s.flushers && s.flushers[t].c == c
    ensures |s.cpus[c].completed| - s.flushers[t].sampled < TWO63 ==>
              |s.cpus[c].completed| < s.flushers[t].sampled <= |s.cpus[c].added|
  {
    ReachableSleep(s);
    FlusherFacts(s, t);
    var f := s.flushers[t];
    if 0 <= |s.cpus[c].completed| - f.sampled < TWO63 {
      ComparisonPasses(f.sampled, |s.cpus[c].completed|);
    }
  }

  /**
   * When every queuer and worker has returned no flush is left asleep and none goes to sleep
   * again, unless 2^63 works went by since it sampled the queue.
   */
  lemma NoFlushWaitsAtRest(s: State, t: Tid)
    requires Reachable(s) && AtRest(s) && t in s.flushers && (s.flushers[t].at == Compare || s.flushers[t].at == Resume)
    requires s.flushers[t].c < |s.cpus| && |s.cpus[s.flushers[t].c].completed| - s.flushers[t].sampled < TWO63
    ensures t !in s.cpus[s.flushers[t].c].asleep
    ensures s.flushers[t].at == Compare ==> FlusherNext(s, s.flushers[t]).at == Next
  {
    var f := s.flushers[t];
    FlusherFacts(s, t);
    AllRunAtRest(s, f.c);
    ComparisonPasses(f.sampled, |s.cpus[f.c].completed|);
    if t in s.cpus[f.c].asleep {
      SleeperHasWork(s, t, f.c);
    }
  }

  lemma ComparisonPasses(needed: nat, done: nat)
    requires 0 <= done - needed < TWO63
    ensures ToLong(ToLong(needed) - ToLong(done)) <= 0
  {
  }

  /** Each work is accepted at least as often as it is inserted, and inserted at least as often as it is called. */
  lemma EachCallOnce(s: State, w: Work)
    requires Reachable(s)
    ensures s.called[w] <= s.inserted[w] <= s.accepted[w] <= s.inserted[w] + 1
    ensures w !in s.pending ==> s.accepted[w] == s.inserted[w]
    ensures AtRest(s) && w !in s.armed ==> s.accepted[w] == s.inserted[w] == s.called[w]
  {
    var g := ReachableInv(s);
    if AtRest(s) && w !in s.armed {
      assert AboutToCall(s, w) == {};
      if w in g.place {
        assert At(s, w, g.place[w]);
        assert g.place[w].OnList?;
        AllRunAtRest(s, g.place[w].c);
        assert false;
      }
    }
  }

  /** A pending work is in one place only: no work is twice on a list, or on two lists. */
  lemma OnePlace(s: State, w: Work)
    requires Reachable(s)
    ensures forall p, r :: At(s, w, p) && At(s, w, r) ==> p == r
    ensures w in s.pending <==> exists p :: At(s, w, p)
    ensures forall c :: 0 <= c < |s.cpus| ==> Distinct(s.cpus[c].worklist)
  {
    var g := ReachableInv(s);
    assert w in g.place ==> At(s, w, g.place[w]);
  }

  /** list_empty(&work->entry) */
  ghost predicate EntryEmpty(s: State, w: Work) {
    forall c :: 0 <= c < |s.cpus| ==> w !in s.cpus[c].worklist
  }

  /** The BUG_ON conditions: entry not empty, timer pending, wq_data of another queue. */
  lemma BugOnsNeverFire(s: State)
    requires Reachable(s)
    ensures forall t :: t in s.queuers && (s.queuers[t].at == Store || s.queuers[t].at == StoreDelayed) ==>
              s.queuers[t].w !in s.armed && EntryEmpty(s, s.queuers[t].w)
    ensures forall t :: t in s.workers && s.workers[t].at == Unset ==>
              s.workers[t].w in s.wqData && s.wqData[s.workers[t].w] == s.workers[t].c
  {
    var g := ReachableInv(s);
    forall t | t in s.queuers && (s.queuers[t].at == Store || s.queuers[t].at == StoreDelayed)
      ensures s.queuers[t].w !in s.armed && EntryEmpty(s, s.queuers[t].w)
    {
      var w := s.queuers[t].w;
      assert At(s, w, WithQueuer(t));
      assert !At(s, w, OnTimer);
      forall c | 0 <= c < |s.cpus|
        ensures w !in s.cpus[c].worklist
      {
        assert !At(s, w, OnList(c));
      }
    }
    forall t | t in s.workers && s.workers[t].at == Unset
      ensures s.workers[t].w in s.wqData && s.wqData[s.workers[t].w] == s.workers[t].c
    {
      assert At(s, s.workers[t].w, WithWorker(t));
      assert Bound(s, s.workers[t].w, WithWorker(t));
    }
  }

  // ------------------------------------------------------------ flushing

  /** What no step undoes: queues only grow, and a flusher remembers what it was called with. */
  ghost predicate Later(s: State, s': State) {
    && |s'.cpus| == |s.cpus| && s'.online == s.online
    && (forall c :: 0 <= c < |s.cpus| ==>
          s.cpus[c].added <= s'.cpus[c].added && s.cpus[c].completed <= s'.cpus[c].completed)
    && (forall t :: t in s.flushers ==> t in s'.flushers && s'.flushers[t].start == s.flushers[t].start)
  }

  lemma QueuerIsLater(s: State, t: Tid, worker: Tid)
    requires QueuerReady(s, t)
    ensures Later(s, AfterQueuer(s, t, worker))
  {
  }

  lemma WorkerIsLater(s: State, t: Tid)
    requires WorkerReady(s, t)
    ensures Later(s, AfterWorker(s, t))
  {
  }

  lemma FlusherIsLater(s: State, t: Tid)
    requires FlusherReady(s, t)
    ensures Later(s, AfterFlusher(s, t))
  {
  }

  lemma StepIsLater(s: State, a: Action)
    requires Enabled(s, a)
    ensures Later(s, Apply(s, a))
  {
    match a
    case StepQueuer(t, worker) => QueuerIsLater(s, t, worker);
    case StepWorker(t) => WorkerIsLater(s, t);
    case StepFlusher(t) => FlusherIsLater(s, t);
    case _ =>
  }

  lemma {:induction false} RunIsLater(s: State, actions: seq<Action>, s': State)
    requires Run(s, actions, s')
    ensures Later(s, s')
    decreases |actions|
  {
    if actions != [] {
      StepIsLater(s, actions[0]);
      RunIsLater(Apply(s, actions[0]), actions[1..], s');
    }
  }

  lemma {:induction false} RunsCompose(s: State, before: seq<Action>, mid: State, after: seq<Action>, s': State)
    requires Run(s, before, mid) && Run(mid, after, s')
    ensures Run(s, before + after, s')
    decreases |before|
  {
    if before == [] {
      assert before + after == after;
    } else {
      RunsCompose(Apply(s, before[0]), before[1..], mid, after, s');
      assert (before + after)[0] == before[0] && (before + after)[1..] == before[1..] + after;
    }
  }

  lemma ReachableAfter(s: State, a: Action, actions: seq<Action>, s': State)
    requires Reachable(s) && Enabled(s, a) && Run(Apply(s, a), actions, s')
    ensures Reachable(s')
  {
    var first, before :| Init(first) && Run(first, before, s);
    assert ([a] + actions)[1..] == actions;
    assert Run(s, [a] + actions, s');
    RunsCompose(first, before, s, [a] + actions, s');
  }

  lemma FinishedFlushPassed(s: State, t: Tid, c: Cpu)
    requires Reachable(s) && t in s.flushers && s.flushers[t].at == Finished
    requires c in s.online && c < |s.cpus| && c < |s.flushers[t].start|
    ensures s.flushers[t].start[c] <= |s.cpus[c].completed| && s.cpus[c].completed <= s.cpus[c].added
  {
    var g := ReachableInv(s);
    assert FlusherOk(s, s.flushers[t]);
    assert s.cpus[c].added == s.cpus[c].completed + InHand(s, g, c) + s.cpus[c].worklist;
  }

  /**
   * When flush_workqueue returns, every work that was on, or had been through, the
   * queue of an online CPU when it was called has finished running, whatever the other
   * threads did meanwhile.
   */
  lemma FlushCompletesEarlierWork(s: State, t: Tid, actions: seq<Action>, s': State, c: Cpu)
    requires Reachable(s) && Enabled(s, FlushWorkqueue(t))
    requires Run(Apply(s, FlushWorkqueue(t)), actions, s')
    requires t in s'.flushers && s'.flushers[t].at == Finished
    requires c in s.online && c < |s.cpus|
    ensures |s'.cpus| == |s.cpus| && s.cpus[c].added <= s'.cpus[c].completed
  {
    var called := Apply(s, FlushWorkqueue(t));
    RunIsLater(called, actions, s');
    ReachableAfter(s, FlushWorkqueue(t), actions, s');
    assert s'.flushers[t].start == called.flushers[t].start;
    FinishedFlushPassed(s', t, c);
  }

  lemma LongDifference(i: nat, r: nat, d: nat)
    requires -1 <= i - d - r < TWO63 && d <= 1
    ensures ToLong(ToLong(i - d) - ToLong(r)) == i - d - r
  {
  }

  lemma OutstandingCount(s: State, g: Aux, c: Cpu)
    requires InvShape(s) && InvOrder(s, g) && InvCounters(s) && InvToken(s, g) && c < |s.cpus|
    ensures ToLong(s.cpus[c].insertSequence - s.cpus[c].removeSequence) ==
              |s.cpus[c].worklist| + |InHand(s, g, c)| - Uncounted(s, c)
  {
    FewOutstanding(s, g, c);
    assert s.cpus[c].added == s.cpus[c].completed + InHand(s, g, c) + s.cpus[c].worklist;
    LongDifference(|s.cpus[c].added|, |s.cpus[c].completed|, Uncounted(s, c));
  }

  lemma InHandIsInFlight(s: State, g: Aux, c: Cpu)
    requires InvServer(s, g)
    ensures |InHand(s, g, c)| == if exists t :: Serving(s, t, c) && InFlight(s.workers[t]) != [] then 1 else 0
  {
  }

  /**
   * In every state insert_sequence minus remove_sequence is the list length plus the work in
   * flight, at most one, less one while a queuer is between its list add and its increment.
   */
  lemma SequencesCountOutstanding(s: State, c: Cpu)
    requires Reachable(s) && c < |s.cpus|
    ensures ToLong(s.cpus[c].insertSequence - s.cpus[c].removeSequence) ==
              |s.cpus[c].worklist| + (if exists t :: Serving(s, t, c) && InFlight(s.workers[t]) != [] then 1 else 0)
              - Uncounted(s, c)
  {
    var g := ReachableInv(s);
    OutstandingCount(s, g, c);
    InHandIsInFlight(s, g, c);
  }
}
