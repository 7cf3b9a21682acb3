/** What every interleaving of the work queue's threads keeps, and what that guarantees. */
module WorkQueueProof {
  import opened Prelude
  import opened WorkQueue

  // ------------------------------------------------- what a program counter says

  /** The queuer holds its queue's lock. */
  predicate QHolds(q: Queuer) {
    q.at == Add || q.at == Count || q.at == Cas || q.at == Unlock
  }

  predicate WHolds(k: Worker) {
    k.at == Take || k.at == Release || k.at == Account || k.at == Leave
  }

  /** The work is accepted but not yet on a worklist. */
  predicate Entering(q: Queuer) {
    q.at == Store || q.at == Acquire || q.at == Add || q.at == StoreDelayed || q.at == Arm
  }

  /** The work is off its worklist but its pending bit is still set. */
  predicate Leaving(k: Worker) {
    k.at == Release || k.at == Unset
  }

  /** The thread is its queue's running worker: from its creation until it clears the marker. */
  predicate Serves(k: Worker) {
    k.at != Recheck && k.at != Recas && k.at != Exited
  }

  /** The work taken off the list and not yet counted in remove_sequence. */
  function InFlight(k: Worker): seq<Work> {
    if k.at == Release || k.at == Unset || k.at == Call || k.at == Running || k.at == Account then [k.w] else []
  }

  // ------------------------------------------------------------- the invariant

  ghost predicate InvShape(s: State) {
    && |s.works| < 0x1000_0000_0000_0000
    && (forall c :: c in s.online ==> c < |s.cpus|)
    && (forall t :: t in s.queuers ==> s.queuers[t].c in s.online)
    && (forall t :: t in s.workers ==> s.workers[t].c in s.online)
    && (forall t :: t in s.flushers && s.flushers[t].at != Next && s.flushers[t].at != Finished ==>
          s.flushers[t].c in s.online)
  }

  ghost predicate Holding(s: State, h: Holder, c: Cpu) {
    match h
    case ByQueuer(t) => t in s.queuers && QHolds(s.queuers[t]) && s.queuers[t].c == c
    case ByWorker(t) => t in s.workers && WHolds(s.workers[t]) && s.workers[t].c == c
    case ByFlusher(t) => t in s.flushers && s.flushers[t].at == Compare && s.flushers[t].c == c
  }

  ghost predicate InvLock(s: State) {
    forall h, c :: 0 <= c < |s.cpus| ==> (Holding(s, h, c) <==> s.cpus[c].lock == Some(h))
  }

  /**
   * Auxiliary record of a state: the worker each queue has, and the one place each
   * work with its pending bit set is in.
   */
  datatype Aux = Aux(server: map<Cpu, Tid>, place: map<Work, Place>)

  datatype Place = WithQueuer(t: Tid) | OnTimer | OnList(c: Cpu) | WithWorker(t: Tid)

  ghost predicate Serving(s: State, t: Tid, c: Cpu) {
    t in s.workers && Serves(s.workers[t]) && s.workers[t].c == c
  }

  /** A queue has at most one worker, and the marker tells whether and which. */
  ghost predicate InvServer(s: State, g: Aux) {
    forall t, c :: Serving(s, t, c) <==> c in g.server && g.server[c] == t
  }

  ghost predicate InvMarker(s: State, g: Aux) {
    forall c :: 0 <= c < |s.cpus| ==> s.cpus[c].thread == MarkerFor(s, g, c)
  }

  ghost function MarkerFor(s: State, g: Aux, c: Cpu): Marker {
    if c !in g.server || g.server[c] !in s.workers then Clear
    else if s.workers[g.server[c]].at == Start then Starting
    else Owned(g.server[c])
  }

  /** Someone is responsible for the queue's worklist. */
  ghost predicate Attended(s: State, c: Cpu)
    requires c < |s.cpus|
  {
    || s.cpus[c].thread != Clear
    || (exists t :: t in s.queuers && s.queuers[t].c == c && (s.queuers[t].at == Count || s.queuers[t].at == Cas))
    || (exists t :: t in s.workers && s.workers[t].c == c && (s.workers[t].at == Recheck || s.workers[t].at == Recas))
  }

  ghost predicate InvAttended(s: State) {
    forall c :: 0 <= c < |s.cpus| && s.cpus[c].worklist != [] ==> Attended(s, c)
  }

  /** The work the queue's worker has in hand. */
  ghost function InHand(s: State, g: Aux, c: Cpu): seq<Work> {
    if c in g.server && g.server[c] in s.workers then InFlight(s.workers[g.server[c]]) else []
  }

  /** 1 while the lock holder has added a work but not yet advanced insert_sequence. */
  function Uncounted(s: State, c: Cpu): nat
    requires c < |s.cpus|
  {
    match s.cpus[c].lock
    case Some(ByQueuer(t)) => if t in s.queuers && s.queuers[t].at == Count then 1 else 0
    case _ => 0
  }

  /** First in, first out. */
  ghost predicate InvOrder(s: State, g: Aux) {
    forall c :: 0 <= c < |s.cpus| ==> s.cpus[c].added == s.cpus[c].completed + InHand(s, g, c) + s.cpus[c].worklist
  }

  /** The two sequence counters are the lengths of the two histories. */
  ghost predicate InvCounters(s: State) {
    forall c :: 0 <= c < |s.cpus| ==>
      && s.cpus[c].insertSequence == ToLong(|s.cpus[c].added| - Uncounted(s, c))
      && s.cpus[c].removeSequence == ToLong(|s.cpus[c].completed|)
  }

  ghost predicate At(s: State, w: Work, p: Place) {
    match p
    case WithQueuer(t) => t in s.queuers && Entering(s.queuers[t]) && s.queuers[t].w == w
    case OnTimer => w in s.armed
    case OnList(c) => c < |s.cpus| && w in s.cpus[c].worklist
    case WithWorker(t) => t in s.workers && Leaving(s.workers[t]) && s.workers[t].w == w
  }

  /** A work is in one place exactly while its pending bit is set, and never twice on a list. */
  ghost predicate InvToken(s: State, g: Aux) {
    && s.pending == g.place.Keys
    && s.pending <= s.works
    && (forall w, p :: At(s, w, p) <==> w in g.place && g.place[w] == p)
    && (forall c :: 0 <= c < |s.cpus| ==> Distinct(s.cpus[c].worklist))
  }

  /** wq_data names the queue the work is bound for. */
  ghost predicate Bound(s: State, w: Work, p: Place) {
    match p
    case WithQueuer(t) =>
      t in s.queuers && (s.queuers[t].at == Acquire || s.queuers[t].at == Add || s.queuers[t].at == Arm) ==>
        w in s.wqData && s.wqData[w] == s.queuers[t].c
    case OnTimer => w in s.wqData && s.wqData[w] in s.online
    case OnList(c) => w in s.wqData && s.wqData[w] == c
    case WithWorker(t) => t in s.workers ==> w in s.wqData && s.wqData[w] == s.workers[t].c
  }

  ghost predicate InvWqData(s: State) {
    forall w, p :: At(s, w, p) ==> Bound(s, w, p)
  }

  predicate OnItsWay(g: Aux, w: Work) {
    w in g.place && (g.place[w].WithQueuer? || g.place[w].OnTimer?)
  }

  predicate Queued(g: Aux, w: Work) {
    w in g.place && (g.place[w].OnList? || g.place[w].WithWorker?)
  }

  ghost function AboutToCall(s: State, w: Work): set<Tid> {
    CallersIn(s.workers, w)
  }

  ghost function CallersIn(workers: map<Tid, Worker>, w: Work): set<Tid> {
    set t | t in workers && workers[t].at == Call && workers[t].w == w
  }

  /** Every accepted call is one insertion, and every insertion one call of the function, done or still to come. */
  ghost predicate InvTally(s: State, g: Aux) {
    forall w ::
      && s.accepted[w] == s.inserted[w] + (if OnItsWay(g, w) then 1 else 0)
      && s.inserted[w] == s.called[w] + (if Queued(g, w) then 1 else 0) + |AboutToCall(s, w)|
  }

  /** On the queues before `upTo`, everything added before `start` was taken has completed. */
  ghost predicate Passed(s: State, start: seq<nat>, upTo: nat) {
    && |start| == |s.cpus|
    && (forall i :: 0 <= i < |s.cpus| ==> start[i] <= |s.cpus[i].added|)
    && (forall i :: 0 <= i < |s.cpus| && i < upTo && i in s.online ==> start[i] <= |s.cpus[i].completed|)
  }

  ghost predicate FlusherOk(s: State, f: Flusher) {
    && Passed(s, f.start, if f.at == Finished then |s.cpus| else f.c)
    && (f.at == Compare || f.at == Resume ==>
          f.c < |s.cpus| && f.start[f.c] <= f.sampled <= |s.cpus[f.c].added| && f.needed == ToLong(f.sampled))
  }

  ghost predicate InvFlush(s: State) {
    forall t :: t in s.flushers ==> FlusherOk(s, s.flushers[t])
  }

  ghost predicate InvWith(s: State, g: Aux) {
    && InvShape(s) && InvLock(s) && InvServer(s, g) && InvMarker(s, g) && InvAttended(s)
    && InvOrder(s, g) && InvCounters(s) && InvToken(s, g) && InvWqData(s) && InvTally(s, g) && InvFlush(s)
  }

  lemma LongSucc(x: int)
    ensures ToLong(ToLong(x) + 1) == ToLong(x + 1)
  {
  }

  // ------------------------------------------------- steps of a queuer

  ghost function AuxQueuer(s: State, g: Aux, t: Tid, worker: Tid): Aux
    requires QueuerReady(s, t)
  {
    var k := s.queuers[t];
    Aux(if k.at == Cas && s.cpus[k.c].thread == Clear then g.server[k.c := worker] else g.server,
        if k.at == Add then g.place[k.w := OnList(k.c)]
        else if k.at == Arm then g.place[k.w := OnTimer]
        else g.place)
  }

  lemma QueuerKeepsLock(s: State, t: Tid, u: Tid)
    requires InvShape(s) && InvLock(s) && QueuerReady(s, t) && u !in s.workers
    ensures InvShape(AfterQueuer(s, t, u)) && InvLock(AfterQueuer(s, t, u))
  {
    var s', k := AfterQueuer(s, t, u), s.queuers[t];
    assert Holding(s, ByQueuer(t), k.c) <==> s.cpus[k.c].lock == Some(ByQueuer(t));
    forall h, c | 0 <= c < |s.cpus|
      ensures Holding(s', h, c) <==> s'.cpus[c].lock == Some(h)
    {
      assert Holding(s, h, c) <==> s.cpus[c].lock == Some(h);
    }
  }

  lemma QueuerKeepsMarker(s: State, g: Aux, t: Tid, u: Tid)
    requires InvServer(s, g) && InvMarker(s, g) && QueuerReady(s, t) && u !in s.workers
    ensures var s', g' := AfterQueuer(s, t, u), AuxQueuer(s, g, t, u); InvServer(s', g') && InvMarker(s', g')
  {
    var s', g' := AfterQueuer(s, t, u), AuxQueuer(s, g, t, u);
    forall v, c
      ensures Serving(s', v, c) <==> c in g'.server && g'.server[c] == v
    {
      assert Serving(s, v, c) <==> c in g.server && g.server[c] == v;
      assert c in g.server ==> Serving(s, g.server[c], c);
    }
    forall c | 0 <= c < |s.cpus|
      ensures s'.cpus[c].thread == MarkerFor(s', g', c)
    {
      assert s.cpus[c].thread == MarkerFor(s, g, c);
      assert c in g.server ==> Serving(s, g.server[c], c);
    }
  }

  lemma QueuerKeepsAttended(s: State, t: Tid, u: Tid)
    requires InvAttended(s) && QueuerReady(s, t) && u !in s.workers
    ensures InvAttended(AfterQueuer(s, t, u))
  {
    var s' := AfterQueuer(s, t, u);
    assert s'.queuers[t] == QueuerNext(s.queuers[t]);
    forall c | 0 <= c < |s.cpus| && s'.cpus[c].worklist != []
      ensures Attended(s', c)
    {
      if s.cpus[c].worklist != [] && s.cpus[c].thread == Clear {
        assert Attended(s, c);
        if v :| v in s.queuers && s.queuers[v].c == c && (s.queuers[v].at == Count || s.queuers[v].at == Cas) {
          assert v in s'.queuers;
        } else if v :|
            v in s.workers && s.workers[v].c == c && (s.workers[v].at == Recheck || s.workers[v].at == Recas) {
          assert v in s'.workers && s'.workers[v] == s.workers[v];
        }
      }
    }
  }

  lemma QueuerKeepsOrder(s: State, g: Aux, t: Tid, u: Tid)
    requires InvServer(s, g) && InvMarker(s, g) && InvOrder(s, g) && QueuerReady(s, t) && u !in s.workers
    ensures InvOrder(AfterQueuer(s, t, u), AuxQueuer(s, g, t, u))
  {
    var s', g' := AfterQueuer(s, t, u), AuxQueuer(s, g, t, u);
    forall c | 0 <= c < |s.cpus|
      ensures s'.cpus[c].added == s'.cpus[c].completed + InHand(s', g', c) + s'.cpus[c].worklist
    {
      assert s.cpus[c].added == s.cpus[c].completed + InHand(s, g, c) + s.cpus[c].worklist;
      assert c in g.server ==> Serving(s, g.server[c], c);
      assert InHand(s', g', c) == InHand(s, g, c) by {
        assert s.cpus[c].thread == MarkerFor(s, g, c);
      }
    }
  }

  lemma QueuerKeepsCounters(s: State, t: Tid, u: Tid)
    requires InvLock(s) && InvCounters(s) && QueuerReady(s, t) && u !in s.workers
    ensures InvCounters(AfterQueuer(s, t, u))
  {
    var s', k := AfterQueuer(s, t, u), s.queuers[t];
    forall c | 0 <= c < |s.cpus|
      ensures s'.cpus[c].insertSequence == ToLong(|s'.cpus[c].added| - Uncounted(s', c))
      ensures s'.cpus[c].removeSequence == ToLong(|s'.cpus[c].completed|)
    {
      assert Holding(s, ByQueuer(t), c) <==> s.cpus[c].lock == Some(ByQueuer(t));
      LongSucc(|s.cpus[c].added| - 1);
    }
  }

  lemma QueuerKeepsToken(s: State, g: Aux, t: Tid, u: Tid)
    requires InvToken(s, g) && QueuerReady(s, t) && u !in s.workers
    ensures InvToken(AfterQueuer(s, t, u), AuxQueuer(s, g, t, u))
  {
    var s', g', k := AfterQueuer(s, t, u), AuxQueuer(s, g, t, u), s.queuers[t];
    assert At(s, k.w, WithQueuer(t)) <==> Entering(k);
    forall w, p
      ensures At(s', w, p) <==> w in g'.place && g'.place[w] == p
    {
      assert At(s, w, p) <==> w in g.place && g.place[w] == p;
    }
    assert k.at == Add ==> !At(s, k.w, OnList(k.c));
  }

  lemma QueuerKeepsWqData(s: State, g: Aux, t: Tid, u: Tid)
    requires InvShape(s) && InvToken(s, g) && InvWqData(s) && QueuerReady(s, t) && u !in s.workers
    ensures InvWqData(AfterQueuer(s, t, u))
  {
    var s', k := AfterQueuer(s, t, u), s.queuers[t];
    assert Entering(k) ==> At(s, k.w, WithQueuer(t)) && Bound(s, k.w, WithQueuer(t));
    forall w, p | At(s', w, p)
      ensures Bound(s', w, p)
    {
      assert At(s, w, p) ==> Bound(s, w, p);
      assert At(s, w, p) ==> w in g.place && g.place[w] == p;
    }
  }

  lemma QueuerKeepsTally(s: State, g: Aux, t: Tid, u: Tid)
    requires InvToken(s, g) && InvTally(s, g) && QueuerReady(s, t) && u !in s.workers
    ensures InvTally(AfterQueuer(s, t, u), AuxQueuer(s, g, t, u))
  {
    var s', k := AfterQueuer(s, t, u), s.queuers[t];
    assert At(s, k.w, WithQueuer(t)) <==> Entering(k);
    forall w
      ensures AboutToCall(s', w) == AboutToCall(s, w)
    {
    }
  }

  lemma QueuerKeepsFlush(s: State, t: Tid, u: Tid)
    requires InvFlush(s) && QueuerReady(s, t) && u !in s.workers
    ensures InvFlush(AfterQueuer(s, t, u))
  {
  }

  // ------------------------------------------------- steps of a worker

  ghost function AuxWorker(s: State, g: Aux, t: Tid): Aux
    requires WorkerReady(s, t)
  {
    var k := s.workers[t];
    var q := s.cpus[k.c];
    Aux(if k.at == ClearMarker then g.server - {k.c}
        else if k.at == Recas && q.thread == Clear then g.server[k.c := t]
        else g.server,
        if k.at == Take && q.worklist != [] then g.place[q.worklist[0] := WithWorker(t)]
        else if k.at == Unset then g.place - {k.w}
        else g.place)
  }

  lemma WorkerKeepsLock(s: State, t: Tid)
    requires InvShape(s) && InvLock(s) && WorkerReady(s, t)
    ensures InvShape(AfterWorker(s, t)) && InvLock(AfterWorker(s, t))
  {
    var s', k := AfterWorker(s, t), s.workers[t];
    assert Holding(s, ByWorker(t), k.c) <==> s.cpus[k.c].lock == Some(ByWorker(t));
    forall h, c | 0 <= c < |s.cpus|
      ensures Holding(s', h, c) <==> s'.cpus[c].lock == Some(h)
    {
      assert Holding(s, h, c) <==> s.cpus[c].lock == Some(h);
    }
  }

  lemma WorkerKeepsMarker(s: State, g: Aux, t: Tid)
    requires InvServer(s, g) && InvMarker(s, g) && WorkerReady(s, t)
    ensures var s', g' := AfterWorker(s, t), AuxWorker(s, g, t); InvServer(s', g') && InvMarker(s', g')
  {
    var s', g', k := AfterWorker(s, t), AuxWorker(s, g, t), s.workers[t];
    assert Serving(s, t, k.c) <==> k.c in g.server && g.server[k.c] == t;
    assert k.c in g.server ==> Serving(s, g.server[k.c], k.c);
    assert s.cpus[k.c].thread == MarkerFor(s, g, k.c);
    forall v, c
      ensures Serving(s', v, c) <==> c in g'.server && g'.server[c] == v
    {
      assert Serving(s, v, c) <==> c in g.server && g.server[c] == v;
    }
    forall c | 0 <= c < |s.cpus|
      ensures s'.cpus[c].thread == MarkerFor(s', g', c)
    {
      assert s.cpus[c].thread == MarkerFor(s, g, c);
      assert c in g.server ==> Serving(s, g.server[c], c);
    }
  }

  lemma WorkerKeepsAttended(s: State, t: Tid)
    requires InvAttended(s) && WorkerReady(s, t)
    ensures InvAttended(AfterWorker(s, t))
  {
    var s' := AfterWorker(s, t);
    assert s'.workers[t] == WorkerNext(s.workers[t], s.cpus[s.workers[t].c]);
    forall c | 0 <= c < |s.cpus| && s'.cpus[c].worklist != []
      ensures Attended(s', c)
    {
      if s.cpus[c].thread == Clear {
        assert Attended(s, c);
        if v :| v in s.queuers && s.queuers[v].c == c && (s.queuers[v].at == Count || s.queuers[v].at == Cas) {
          assert v in s'.queuers && s'.queuers[v] == s.queuers[v];
        } else if v :|
            v in s.workers && s.workers[v].c == c && (s.workers[v].at == Recheck || s.workers[v].at == Recas) {
          assert v in s'.workers;
        }
      }
    }
  }

  lemma WorkerKeepsOwnOrder(q: Queue, t: Tid, k: Worker)
    requires q.added == q.completed + InFlight(k) + q.worklist && Serves(k)
    ensures var q', k' := QueueAfterWorker(q, t, k), WorkerNext(k, q);
      q'.added == q'.completed + (if Serves(k') then InFlight(k') else []) + q'.worklist
  {
  }

  lemma WorkerKeepsOrder(s: State, g: Aux, t: Tid)
    requires InvServer(s, g) && InvMarker(s, g) && InvOrder(s, g) && WorkerReady(s, t)
    ensures InvOrder(AfterWorker(s, t), AuxWorker(s, g, t))
  {
    var s', g', k := AfterWorker(s, t), AuxWorker(s, g, t), s.workers[t];
    assert Serving(s, t, k.c) <==> k.c in g.server && g.server[k.c] == t;
    if Serves(k) {
      WorkerKeepsOwnOrder(s.cpus[k.c], t, k);
    }
    forall c | 0 <= c < |s.cpus|
      ensures s'.cpus[c].added == s'.cpus[c].completed + InHand(s', g', c) + s'.cpus[c].worklist
    {
      assert s.cpus[c].added == s.cpus[c].completed + InHand(s, g, c) + s.cpus[c].worklist;
      assert c in g.server ==> Serving(s, g.server[c], c);
      assert s.cpus[c].thread == MarkerFor(s, g, c);
    }
  }

  lemma WorkerKeepsCounters(s: State, t: Tid)
    requires InvLock(s) && InvCounters(s) && WorkerReady(s, t)
    ensures InvCounters(AfterWorker(s, t))
  {
    var s', k := AfterWorker(s, t), s.workers[t];
    assert Holding(s, ByWorker(t), k.c) <==> s.cpus[k.c].lock == Some(ByWorker(t));
    LongSucc(|s.cpus[k.c].completed|);
    forall c | 0 <= c < |s.cpus|
      ensures Uncounted(s', c) == Uncounted(s, c)
    {
      assert c != k.c ==> s'.cpus[c] == s.cpus[c];
    }
  }

  lemma WorkerKeepsToken(s: State, g: Aux, t: Tid)
    requires InvToken(s, g) && WorkerReady(s, t)
    ensures InvToken(AfterWorker(s, t), AuxWorker(s, g, t))
  {
    var s', g', k := AfterWorker(s, t), AuxWorker(s, g, t), s.workers[t];
    var q := s.cpus[k.c];
    assert At(s, k.w, WithWorker(t)) <==> Leaving(k);
    assert q.worklist != [] ==> At(s, q.worklist[0], OnList(k.c));
    assert q.worklist != [] ==> forall w :: w in q.worklist <==> w == q.worklist[0] || w in q.worklist[1..];
    assert q.worklist != [] ==> q.worklist[0] !in q.worklist[1..];
    forall w, p
      ensures At(s', w, p) <==> w in g'.place && g'.place[w] == p
    {
      assert At(s, w, p) <==> w in g.place && g.place[w] == p;
    }
  }

  lemma WorkerKeepsWqData(s: State, g: Aux, t: Tid)
    requires InvToken(s, g) && InvWqData(s) && WorkerReady(s, t)
    ensures InvWqData(AfterWorker(s, t))
  {
    var s', k := AfterWorker(s, t), s.workers[t];
    var q := s.cpus[k.c];
    assert q.worklist != [] ==> At(s, q.worklist[0], OnList(k.c)) && Bound(s, q.worklist[0], OnList(k.c));
    assert q.worklist != [] ==> forall w :: w in q.worklist[1..] ==> w in q.worklist;
    forall w, p | At(s', w, p)
      ensures Bound(s', w, p)
    {
      assert At(s, w, p) ==> Bound(s, w, p);
    }
  }

  lemma MoveCaller(workers: map<Tid, Worker>, t: Tid, k: Worker, w: Work)
    requires t in workers
    ensures |CallersIn(workers[t := k], w)| == |CallersIn(workers, w)|
              + (if k.at == Call && k.w == w then 1 else 0)
              - (if workers[t].at == Call && workers[t].w == w then 1 else 0)
  {
    var before, after := CallersIn(workers, w), CallersIn(workers[t := k], w);
    if t in after {
      assert after == before + {t};
    } else {
      assert after == before - {t};
    }
  }

  /** A worker never takes a work back to its queuer; it lets go of it when it clears the pending bit. */
  lemma WorkerMovesWork(s: State, g: Aux, t: Tid, w: Work)
    requires InvToken(s, g) && WorkerReady(s, t)
    ensures var g', k := AuxWorker(s, g, t), s.workers[t];
      && OnItsWay(g', w) == OnItsWay(g, w)
      && (k.at == Unset && k.w == w ==> Queued(g, w) && !Queued(g', w))
      && (!(k.at == Unset && k.w == w) ==> Queued(g', w) == Queued(g, w))
  {
    var k := s.workers[t];
    var q := s.cpus[k.c];
    assert At(s, k.w, WithWorker(t)) <==> Leaving(k);
    assert q.worklist != [] ==> At(s, q.worklist[0], OnList(k.c));
  }

  lemma WorkerKeepsTally(s: State, g: Aux, t: Tid)
    requires InvToken(s, g) && InvTally(s, g) && WorkerReady(s, t)
    ensures InvTally(AfterWorker(s, t), AuxWorker(s, g, t))
  {
    var s', g', k := AfterWorker(s, t), AuxWorker(s, g, t), s.workers[t];
    forall w
      ensures s'.accepted[w] == s'.inserted[w] + (if OnItsWay(g', w) then 1 else 0)
      ensures s'.inserted[w] == s'.called[w] + (if Queued(g', w) then 1 else 0) + |AboutToCall(s', w)|
    {
      WorkerMovesWork(s, g, t, w);
      MoveCaller(s.workers, t, WorkerNext(k, s.cpus[k.c]), w);
    }
  }

  lemma WorkerKeepsFlush(s: State, t: Tid)
    requires InvFlush(s) && WorkerReady(s, t)
    ensures InvFlush(AfterWorker(s, t))
  {
  }

  // ------------------------------------------------- steps of a flusher

  lemma FlusherKeepsLock(s: State, t: Tid)
    requires InvShape(s) && InvLock(s) && FlusherReady(s, t)
    ensures InvShape(AfterFlusher(s, t)) && InvLock(AfterFlusher(s, t))
  {
    var s', f := AfterFlusher(s, t), s.flushers[t];
    assert f.c < |s.cpus| ==> (Holding(s, ByFlusher(t), f.c) <==> s.cpus[f.c].lock == Some(ByFlusher(t)));
    forall h, c | 0 <= c < |s.cpus|
      ensures Holding(s', h, c) <==> s'.cpus[c].lock == Some(h)
    {
      assert Holding(s, h, c) <==> s.cpus[c].lock == Some(h);
    }
  }

  /** A flusher writes nothing but the locks and the wait queues. */
  ghost predicate OnlyLocksMove(s: State, s': State) {
    && |s'.cpus| == |s.cpus|
    && (forall c :: 0 <= c < |s.cpus| ==>
          s'.cpus[c] == s.cpus[c].(lock := s'.cpus[c].lock, asleep := s'.cpus[c].asleep))
    && s' == s.(flushers := s'.flushers, cpus := s'.cpus)
  }

  lemma FlusherKeepsQueues(s: State, g: Aux, s': State)
    requires OnlyLocksMove(s, s')
    requires InvServer(s, g) && InvMarker(s, g) && InvAttended(s) && InvOrder(s, g)
    ensures InvServer(s', g) && InvMarker(s', g) && InvAttended(s') && InvOrder(s', g)
  {
    assert forall v, c :: Serving(s', v, c) == Serving(s, v, c);
    forall c | 0 <= c < |s.cpus|
      ensures s'.cpus[c].thread == MarkerFor(s', g, c)
      ensures s'.cpus[c].worklist != [] ==> Attended(s', c)
      ensures s'.cpus[c].added == s'.cpus[c].completed + InHand(s', g, c) + s'.cpus[c].worklist
    {
      assert s.cpus[c].thread == MarkerFor(s, g, c);
      assert s.cpus[c].worklist != [] ==> Attended(s, c);
    }
  }

  lemma FlusherKeepsToken(s: State, g: Aux, s': State)
    requires OnlyLocksMove(s, s') && InvToken(s, g) && InvWqData(s) && InvTally(s, g)
    ensures InvToken(s', g) && InvWqData(s') && InvTally(s', g)
  {
    assert forall w, p :: At(s', w, p) == At(s, w, p) && Bound(s', w, p) == Bound(s, w, p);
    assert forall w :: AboutToCall(s', w) == AboutToCall(s, w);
  }

  lemma FlusherKeepsCounters(s: State, t: Tid)
    requires InvLock(s) && InvCounters(s) && FlusherReady(s, t)
    ensures InvCounters(AfterFlusher(s, t))
  {
    var s' := AfterFlusher(s, t);
    forall c | 0 <= c < |s.cpus|
      ensures s'.cpus[c].insertSequence == ToLong(|s'.cpus[c].added| - Uncounted(s', c))
      ensures s'.cpus[c].removeSequence == ToLong(|s'.cpus[c].completed|)
    {
      assert Holding(s, ByFlusher(t), c) <==> s.cpus[c].lock == Some(ByFlusher(t));
    }
  }

  /** However long it lives, no queue has 2^63 works outstanding: each is a different work_struct. */
  lemma FewOutstanding(s: State, g: Aux, c: Cpu)
    requires InvShape(s) && InvOrder(s, g) && InvToken(s, g) && c < |s.cpus|
    ensures |s.cpus[c].added| - |s.cpus[c].completed| < TWO63
  {
    forall w | w in s.cpus[c].worklist
      ensures w in s.works
    {
      assert At(s, w, OnList(c));
    }
    DistinctFits(s.cpus[c].worklist, s.works);
  }

  /** The wrapped comparison of flush_workqueue does not end the wait early. */
  lemma ComparisonSound(needed: nat, done: nat)
    requires needed - done < TWO63
    ensures ToLong(ToLong(needed) - ToLong(done)) <= 0 ==> needed <= done
  {
  }

  lemma CompareIsSound(s: State, g: Aux, f: Flusher)
    requires InvShape(s) && InvOrder(s, g) && InvToken(s, g) && InvCounters(s)
    requires FlusherOk(s, f) && f.at == Compare
    ensures ToLong(f.needed - s.cpus[f.c].removeSequence) <= 0 ==> f.sampled <= |s.cpus[f.c].completed|
  {
    FewOutstanding(s, g, f.c);
    ComparisonSound(f.sampled, |s.cpus[f.c].completed|);
  }

  lemma FlusherStaysOk(s: State, g: Aux, t: Tid)
    requires InvShape(s) && InvOrder(s, g) && InvToken(s, g) && InvCounters(s) && FlusherReady(s, t)
    requires FlusherOk(s, s.flushers[t])
    ensures FlusherOk(s, FlusherNext(s, s.flushers[t]))
  {
    var f := s.flushers[t];
    if f.at == Sample {
      assert Uncounted(s, f.c) == 0;
    } else if f.at == Compare {
      CompareIsSound(s, g, f);
    }
  }

  lemma FlusherKeepsFlush(s: State, g: Aux, t: Tid)
    requires InvShape(s) && InvOrder(s, g) && InvToken(s, g) && InvCounters(s) && InvFlush(s) && FlusherReady(s, t)
    ensures InvFlush(AfterFlusher(s, t))
  {
    var s' := AfterFlusher(s, t);
    FlusherStaysOk(s, g, t);
    forall v | v in s'.flushers
      ensures FlusherOk(s', s'.flushers[v])
    {
      assert FlusherOk(s, s'.flushers[v]);
    }
  }

  // ------------------------------------------------- calls and timer expiries

  ghost function AuxNext(s: State, g: Aux, a: Action): Aux
    requires Enabled(s, a)
  {
    match a
    case QueueWork(t, w, _) => if w in s.pending then g else g.(place := g.place[w := WithQueuer(t)])
    case QueueDelayedWork(t, w, _) => if w in s.pending then g else g.(place := g.place[w := WithQueuer(t)])
    case TimerExpires(t, w) => g.(place := g.place[w := WithQueuer(t)])
    case FlushWorkqueue(_) => g
    case StepQueuer(t, worker) => AuxQueuer(s, g, t, worker)
    case StepWorker(t) => AuxWorker(s, g, t)
    case StepFlusher(_) => g
  }

  /** A queuer that arrives changes nothing but the bookkeeping of its own work. */
  ghost predicate Arrives(s: State, t: Tid, k: Queuer, s': State) {
    && t !in s.queuers
    && (k.at == Store || k.at == StoreDelayed || k.at == Acquire || k.at == Returned)
    && s' == s.(queuers := s.queuers[t := k], pending := s'.pending, armed := s'.armed, accepted := s'.accepted)
  }

  lemma ArrivalKeepsLock(s: State, t: Tid, k: Queuer, s': State)
    requires Arrives(s, t, k, s') && InvShape(s) && InvLock(s) && InvFlush(s) && k.c in s.online
    ensures InvShape(s') && InvLock(s') && InvFlush(s')
  {
    forall h, c | 0 <= c < |s.cpus|
      ensures Holding(s', h, c) <==> s'.cpus[c].lock == Some(h)
    {
      assert Holding(s, h, c) <==> s.cpus[c].lock == Some(h);
    }
    forall v | v in s'.flushers
      ensures FlusherOk(s', s'.flushers[v])
    {
      assert FlusherOk(s, s.flushers[v]);
    }
  }

  lemma ArrivalKeepsQueues(s: State, g: Aux, t: Tid, k: Queuer, s': State, g': Aux)
    requires Arrives(s, t, k, s') && g'.server == g.server
    requires InvLock(s) && InvServer(s, g) && InvMarker(s, g) && InvOrder(s, g) && InvCounters(s)
    ensures InvServer(s', g') && InvMarker(s', g') && InvOrder(s', g') && InvCounters(s')
  {
    assert forall v, c :: Serving(s', v, c) == Serving(s, v, c);
    forall c | 0 <= c < |s.cpus|
      ensures s'.cpus[c].thread == MarkerFor(s', g', c)
      ensures Uncounted(s', c) == Uncounted(s, c)
      ensures InHand(s', g', c) == InHand(s, g, c)
    {
      assert s.cpus[c].thread == MarkerFor(s, g, c);
      assert s.cpus[c].lock.Some? ==> Holding(s, s.cpus[c].lock.value, c);
    }
  }

  lemma ArrivalKeepsAttended(s: State, t: Tid, k: Queuer, s': State)
    requires Arrives(s, t, k, s') && InvAttended(s)
    ensures InvAttended(s')
  {
    forall c | 0 <= c < |s.cpus| && s'.cpus[c].worklist != []
      ensures Attended(s', c)
    {
      assert Attended(s, c);
      if v :| v in s.queuers && s.queuers[v].c == c && (s.queuers[v].at == Count || s.queuers[v].at == Cas) {
        assert v in s'.queuers && s'.queuers[v] == s.queuers[v];
      }
    }
  }

  lemma RefusedCallKeepsToken(s: State, g: Aux, t: Tid, k: Queuer)
    requires InvToken(s, g) && InvWqData(s) && InvTally(s, g) && t !in s.queuers && k.at == Returned
    ensures var s' := s.(queuers := s.queuers[t := k]); InvToken(s', g) && InvWqData(s') && InvTally(s', g)
  {
    var s' := s.(queuers := s.queuers[t := k]);
    assert forall v, p :: At(s', v, p) == At(s, v, p) && (At(s, v, p) ==> Bound(s', v, p) == Bound(s, v, p));
  }

  lemma AcceptedCallKeepsToken(s: State, g: Aux, t: Tid, w: Work, c: Cpu, at: QueuerAt)
    requires InvToken(s, g) && InvWqData(s) && InvTally(s, g) && t !in s.queuers
    requires w in s.works && w !in s.pending && (at == Store || at == StoreDelayed)
    ensures var s', g' := Begin(s, t, w, c, at), g.(place := g.place[w := WithQueuer(t)]);
      InvToken(s', g') && InvWqData(s') && InvTally(s', g')
  {
    var s', g' := Begin(s, t, w, c, at), g.(place := g.place[w := WithQueuer(t)]);
    forall v, p
      ensures At(s', v, p) <==> v in g'.place && g'.place[v] == p
      ensures At(s', v, p) ==> Bound(s', v, p)
    {
      assert At(s, v, p) <==> v in g.place && g.place[v] == p;
      assert At(s, v, p) ==> Bound(s, v, p);
    }
  }

  lemma ExpiryKeepsToken(s: State, g: Aux, a: Action)
    requires InvToken(s, g) && InvWqData(s) && InvTally(s, g) && Enabled(s, a) && a.TimerExpires?
    ensures var s', g' := Apply(s, a), g.(place := g.place[a.w := WithQueuer(a.t)]);
      InvToken(s', g') && InvWqData(s') && InvTally(s', g')
  {
    var s', g' := Apply(s, a), g.(place := g.place[a.w := WithQueuer(a.t)]);
    assert At(s, a.w, OnTimer);
    forall v, p
      ensures At(s', v, p) <==> v in g'.place && g'.place[v] == p
      ensures At(s', v, p) ==> Bound(s', v, p)
    {
      assert At(s, v, p) <==> v in g.place && g.place[v] == p;
      assert At(s, v, p) ==> Bound(s, v, p);
    }
  }

  lemma ArrivalKeeps(s: State, g: Aux, a: Action)
    requires InvWith(s, g) && Enabled(s, a) && (a.QueueWork? || a.QueueDelayedWork? || a.TimerExpires?)
    ensures InvWith(Apply(s, a), AuxNext(s, g, a))
  {
    var s', g' := Apply(s, a), AuxNext(s, g, a);
    if a.TimerExpires? {
      assert At(s, a.w, OnTimer) && Bound(s, a.w, OnTimer);
      ExpiryKeepsToken(s, g, a);
    } else if a.w in s.pending {
      RefusedCallKeepsToken(s, g, a.t, Queuer(Returned, a.w, a.c, false));
    } else {
      AcceptedCallKeepsToken(s, g, a.t, a.w, a.c, if a.QueueWork? then Store else StoreDelayed);
    }
    var k := s'.queuers[a.t];
    assert Arrives(s, a.t, k, s');
    ArrivalKeepsLock(s, a.t, k, s');
    ArrivalKeepsQueues(s, g, a.t, k, s', g');
    ArrivalKeepsAttended(s, a.t, k, s');
  }

  lemma FlushCallKeepsLock(s: State, a: Action)
    requires InvShape(s) && InvLock(s) && InvCounters(s) && Enabled(s, a) && a.FlushWorkqueue?
    ensures var s' := Apply(s, a); InvShape(s') && InvLock(s') && InvCounters(s')
  {
  }

  lemma FlushCallKeepsFlush(s: State, a: Action)
    requires InvFlush(s) && Enabled(s, a) && a.FlushWorkqueue?
    ensures InvFlush(Apply(s, a))
  {
  }

  // ------------------------------------------------- every run

  lemma QueuerKeeps(s: State, g: Aux, t: Tid, u: Tid)
    requires InvWith(s, g) && QueuerReady(s, t) && u !in s.workers
    ensures InvWith(AfterQueuer(s, t, u), AuxQueuer(s, g, t, u))
  {
    QueuerKeepsLock(s, t, u);
    QueuerKeepsMarker(s, g, t, u);
    QueuerKeepsAttended(s, t, u);
    QueuerKeepsOrder(s, g, t, u);
    QueuerKeepsCounters(s, t, u);
    QueuerKeepsToken(s, g, t, u);
    QueuerKeepsWqData(s, g, t, u);
    QueuerKeepsTally(s, g, t, u);
    QueuerKeepsFlush(s, t, u);
  }

  lemma WorkerKeeps(s: State, g: Aux, t: Tid)
    requires InvWith(s, g) && WorkerReady(s, t)
    ensures InvWith(AfterWorker(s, t), AuxWorker(s, g, t))
  {
    WorkerKeepsLock(s, t);
    WorkerKeepsMarker(s, g, t);
    WorkerKeepsAttended(s, t);
    WorkerKeepsOrder(s, g, t);
    WorkerKeepsCounters(s, t);
    WorkerKeepsToken(s, g, t);
    WorkerKeepsWqData(s, g, t);
    WorkerKeepsTally(s, g, t);
    WorkerKeepsFlush(s, t);
  }

  lemma FlusherKeeps(s: State, g: Aux, t: Tid)
    requires InvWith(s, g) && FlusherReady(s, t)
    ensures InvWith(AfterFlusher(s, t), g)
  {
    FlusherKeepsLock(s, t);
    FlusherKeepsQueues(s, g, AfterFlusher(s, t));
    FlusherKeepsToken(s, g, AfterFlusher(s, t));
    FlusherKeepsCounters(s, t);
    FlusherKeepsFlush(s, g, t);
  }

  lemma FlushCallKeeps(s: State, g: Aux, a: Action)
    requires InvWith(s, g) && Enabled(s, a) && a.FlushWorkqueue?
    ensures InvWith(Apply(s, a), g)
  {
    FlushCallKeepsLock(s, a);
    FlushCallKeepsFlush(s, a);
    FlusherKeepsQueues(s, g, Apply(s, a));
    FlusherKeepsToken(s, g, Apply(s, a));
  }

  lemma Keeps(s: State, g: Aux, a: Action)
    requires InvWith(s, g) && Enabled(s, a)
    ensures InvWith(Apply(s, a), AuxNext(s, g, a))
  {
    match a
    case StepQueuer(t, worker) => QueuerKeeps(s, g, t, worker);
    case StepWorker(t) => WorkerKeeps(s, g, t);
    case FlushWorkqueue(t) => FlushCallKeeps(s, g, a);
    case StepFlusher(t) => FlusherKeeps(s, g, t);
    case _ => ArrivalKeeps(s, g, a);
  }

  lemma InitHolds(s: State)
    requires Init(s)
    ensures InvWith(s, Aux(map[], map[]))
  {
  }

  lemma {:induction false} RunKeeps(first: State, g: Aux, actions: seq<Action>, last: State) returns (g': Aux)
    requires InvWith(first, g) && Run(first, actions, last)
    ensures InvWith(last, g')
    decreases |actions|
  {
    if actions == [] {
      g' := g;
    } else {
      Keeps(first, g, actions[0]);
      g' := RunKeeps(Apply(first, actions[0]), AuxNext(first, g, actions[0]), actions[1..], last);
    }
  }

  lemma ReachableInv(s: State) returns (g: Aux)
    requires Reachable(s)
    ensures InvWith(s, g)
  {
    var first, actions :| Init(first) && Run(first, actions, s);
    InitHolds(first);
    g := RunKeeps(first, Aux(map[], map[]), actions, s);
  }
}
