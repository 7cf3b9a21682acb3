/**
 * The per-CPU work queue of lib/lk/workqueue.C as a step machine.
 *
 * Every queue_work or queue_delayed_work call and every expiry of a work's timer
 * is a queuer, every k42_worker_thread a worker and every flush_workqueue call a
 * flusher; a run is any interleaving of their steps.  A step is one access to
 * shared memory, except that a BUG_ON test is merged with the store after it.
 */
module WorkQueue {
  import opened Prelude

  type Tid = nat
  type Work = nat
  type Cpu = nat

  // ----------------------------------------------------------------- state

  /** Where a queuer is: what it does next. */
  datatype QueuerAt =
    | Store            // queue_work: BUG_ON on the entry, then store wq_data
    | Acquire          // delayed_work_timer_fn starts here
    | Add              // list_add_tail
    | Count            // insert_sequence++
    | Cas              // CompareAndStore64 of the thread marker
    | Unlock
    | StoreDelayed     // queue_delayed_work: BUG_ONs on timer and entry, then store wq_data
    | Arm              // add_timer
    | Returned
  /** `ret` is what the call returns; a timer expiry returns nothing. */
  datatype Queuer = Queuer(at: QueuerAt, w: Work, c: Cpu, ret: bool)

  /** Where a worker is; `w` is the work in its hands, if any. */
  datatype WorkerAt =
    | Start            // store its own pointer in the marker
    | Test             // while (!list_empty) run_workqueue
    | AcquireRun       // run_workqueue takes the lock
    | Take             // the loop test of run_workqueue, then list_del_init
    | Release
    | Unset            // BUG_ON on wq_data, then clear the pending bit
    | Call             // f(data) is called
    | Running          // f(data) returns, then take the lock
    | Account          // remove_sequence++
    | Leave            // run_workqueue drops the lock
    | ClearMarker
    | Recheck          // list_empty after the marker was cleared
    | Recas            // try to take the marker back
    | Exited
  datatype Worker = Worker(at: WorkerAt, c: Cpu, w: Work)

  /** Where a flusher is; `start` is what had been added to each queue when it was called. */
  datatype FlusherAt =
    | Next             // the for loop over the CPUs
    | Sample           // take the lock and read insert_sequence
    | Compare          // sequence_needed - remove_sequence > 0
    | Resume           // asleep on work_done; once woken, take the lock again
    | Finished
  datatype Flusher = Flusher(at: FlusherAt, c: Cpu, needed: int, sampled: nat, start: seq<nat>)

  datatype Holder = ByQueuer(t: Tid) | ByWorker(t: Tid) | ByFlusher(t: Tid)

  /** `cwq->thread`: zero, the constant 1, or a pointer to the running worker. */
  datatype Marker = Clear | Starting | Owned(worker: Tid)

  /**
   * `asleep` are the flushers on the wait queue work_done. `added` and `completed` are histories:
   * works in the order of list_add_tail and of remove_sequence++.
   */
  datatype Queue = Queue(
    lock: Option<Holder>,
    worklist: seq<Work>,
    thread: Marker,
    insertSequence: int,
    removeSequence: int,
    asleep: set<Tid>,
    added: seq<Work>,
    completed: seq<Work>)

  /**
   * `works` are the work_structs in memory and `armed` those whose timer is pending.
   * `accepted`, `inserted` and `called` are histories: successful queue calls, list
   * insertions and calls of the work's function.
   */
  datatype State = State(
    works: set<Work>,
    online: set<Cpu>,
    cpus: seq<Queue>,
    pending: set<Work>,
    wqData: map<Work, Cpu>,
    armed: set<Work>,
    queuers: map<Tid, Queuer>,
    workers: map<Tid, Worker>,
    flushers: map<Tid, Flusher>,
    accepted: multiset<Work>,
    inserted: multiset<Work>,
    called: multiset<Work>)

  const TWO63: int := 0x8000_0000_0000_0000
  const TWO64: int := 0x1_0000_0000_0000_0000

  /** The value an integer has once stored in a 64-bit `long`. */
  function ToLong(x: int): int {
    (x + TWO63) % TWO64 - TWO63
  }

  // ----------------------------------------------------------------- steps

  datatype Action =
    | QueueWork(t: Tid, w: Work, c: Cpu)
    | QueueDelayedWork(t: Tid, w: Work, c: Cpu)
    | TimerExpires(t: Tid, w: Work)
    | FlushWorkqueue(t: Tid)
    | StepQueuer(t: Tid, worker: Tid)    // `worker` names the thread a successful Cas creates
    | StepWorker(t: Tid)
    | StepFlusher(t: Tid)

  predicate Free(s: State, c: Cpu) {
    c < |s.cpus| && s.cpus[c].lock.None?
  }

  predicate Enabled(s: State, a: Action) {
    match a
    case QueueWork(t, w, c) => t !in s.queuers && w in s.works && c in s.online
    case QueueDelayedWork(t, w, c) => t !in s.queuers && w in s.works && c in s.online
    case TimerExpires(t, w) => t !in s.queuers && w in s.armed && w in s.wqData
    case FlushWorkqueue(t) => t !in s.flushers
    case StepQueuer(t, worker) => QueuerReady(s, t) && worker !in s.workers
    case StepWorker(t) => WorkerReady(s, t)
    case StepFlusher(t) => FlusherReady(s, t)
  }

  /** A thread that has not returned can step unless it has to wait for its queue's lock. */
  predicate QueuerReady(s: State, t: Tid) {
    && t in s.queuers && s.queuers[t].at != Returned && s.queuers[t].c < |s.cpus|
    && (s.queuers[t].at == Acquire ==> Free(s, s.queuers[t].c))
  }

  predicate WorkerReady(s: State, t: Tid) {
    && t in s.workers && s.workers[t].at != Exited && s.workers[t].c < |s.cpus|
    && (s.workers[t].at == AcquireRun || s.workers[t].at == Running ==> Free(s, s.workers[t].c))
  }

  predicate FlusherReady(s: State, t: Tid) {
    && t in s.flushers && s.flushers[t].at != Finished
    && (s.flushers[t].at == Compare ==> s.flushers[t].c < |s.cpus|)
    && (s.flushers[t].at == Sample || s.flushers[t].at == Resume ==> Free(s, s.flushers[t].c))
    && (s.flushers[t].at == Resume ==> t !in s.cpus[s.flushers[t].c].asleep)
  }

  function Apply(s: State, a: Action): State
    requires Enabled(s, a)
  {
    match a
    case QueueWork(t, w, c) => Begin(s, t, w, c, Store)
    case QueueDelayedWork(t, w, c) => Begin(s, t, w, c, StoreDelayed)
    case TimerExpires(t, w) =>
      s.(armed := s.armed - {w}, queuers := s.queuers[t := Queuer(Acquire, w, s.wqData[w], false)])
    case FlushWorkqueue(t) =>
      var start := seq(|s.cpus|, i requires 0 <= i < |s.cpus| => |s.cpus[i].added|);
      s.(flushers := s.flushers[t := Flusher(Next, 0, 0, 0, start)])
    case StepQueuer(t, worker) => AfterQueuer(s, t, worker)
    case StepWorker(t) => AfterWorker(s, t)
    case StepFlusher(t) => AfterFlusher(s, t)
  }

  /** test_and_set_bit on the pending bit: the call goes on only if the bit was clear. */
  function Begin(s: State, t: Tid, w: Work, c: Cpu, at: QueuerAt): State {
    if w in s.pending then s.(queuers := s.queuers[t := Queuer(Returned, w, c, false)])
    else
      s.(pending := s.pending + {w}, accepted := s.accepted + multiset{w},
         queuers := s.queuers[t := Queuer(at, w, c, false)])
  }

  // A step moves its own thread, rewrites its own queue and touches the work it carries.

  function QueuerNext(k: Queuer): Queuer {
    match k.at
    case Store => k.(at := Acquire)
    case Acquire => k.(at := Add)
    case Add => k.(at := Count)
    case Count => k.(at := Cas)
    case Cas => k.(at := Unlock)
    case StoreDelayed => k.(at := Arm)
    case _ => k.(at := Returned, ret := true)
  }

  function QueueAfterQueuer(q: Queue, t: Tid, k: Queuer): Queue {
    match k.at
    case Acquire => q.(lock := Some(ByQueuer(t)))
    case Add => q.(worklist := q.worklist + [k.w], added := q.added + [k.w])
    case Count => q.(insertSequence := ToLong(q.insertSequence + 1))
    case Cas => if q.thread == Clear then q.(thread := Starting) else q
    case Unlock => q.(lock := None)
    case _ => q
  }

  function AfterQueuer(s: State, t: Tid, worker: Tid): State
    requires QueuerReady(s, t)
  {
    var k := s.queuers[t];
    var q := s.cpus[k.c];
    s.(queuers := s.queuers[t := QueuerNext(k)],
       cpus := s.cpus[k.c := QueueAfterQueuer(q, t, k)],
       wqData := if k.at == Store || k.at == StoreDelayed then s.wqData[k.w := k.c] else s.wqData,
       armed := if k.at == Arm then s.armed + {k.w} else s.armed,
       inserted := if k.at == Add then s.inserted + multiset{k.w} else s.inserted,
       workers := if k.at == Cas && q.thread == Clear then s.workers[worker := Worker(Start, k.c, k.w)] else s.workers)
  }

  function WorkerNext(k: Worker, q: Queue): Worker {
    match k.at
    case Start => k.(at := Test)
    case Test => k.(at := if q.worklist == [] then ClearMarker else AcquireRun)
    case AcquireRun => k.(at := Take)
    case Take => if q.worklist == [] then k.(at := Leave) else k.(at := Release, w := q.worklist[0])
    case Release => k.(at := Unset)
    case Unset => k.(at := Call)
    case Call => k.(at := Running)
    case Running => k.(at := Account)
    case Account => k.(at := Take)
    case Leave => k.(at := Test)
    case ClearMarker => k.(at := Recheck)
    case Recheck => k.(at := if q.worklist == [] then Exited else Recas)
    case Recas => k.(at := if q.thread == Clear then Test else Exited)
    case Exited => k
  }

  function QueueAfterWorker(q: Queue, t: Tid, k: Worker): Queue {
    match k.at
    case Start => q.(thread := Owned(t))
    case AcquireRun => q.(lock := Some(ByWorker(t)))
    case Take => if q.worklist == [] then q else q.(worklist := q.worklist[1..])
    case Release => q.(lock := None)
    case Running => q.(lock := Some(ByWorker(t)))
    case Account => q.(removeSequence := ToLong(q.removeSequence + 1), asleep := {}, completed := q.completed + [k.w])
    case Leave => q.(lock := None)
    case ClearMarker => q.(thread := Clear)
    case Recas => if q.thread == Clear then q.(thread := Owned(t)) else q
    case _ => q
  }

  function AfterWorker(s: State, t: Tid): State
    requires WorkerReady(s, t)
  {
    var k := s.workers[t];
    var q := s.cpus[k.c];
    s.(workers := s.workers[t := WorkerNext(k, q)],
       cpus := s.cpus[k.c := QueueAfterWorker(q, t, k)],
       pending := if k.at == Unset then s.pending - {k.w} else s.pending,
       called := if k.at == Call then s.called + multiset{k.w} else s.called)
  }

  function FlusherNext(s: State, f: Flusher): Flusher {
    if f.at == Next then
      if f.c >= |s.cpus| then f.(at := Finished)
      else if f.c in s.online then f.(at := Sample)
      else f.(c := f.c + 1)
    else if f.c >= |s.cpus| then f
    else
      match f.at
      case Sample => f.(at := Compare, needed := s.cpus[f.c].insertSequence, sampled := |s.cpus[f.c].added|)
      case Compare =>
        if ToLong(f.needed - s.cpus[f.c].removeSequence) > 0 then f.(at := Resume) else f.(at := Next, c := f.c + 1)
      case Resume => f.(at := Compare)
      case _ => f
  }

  function QueueAfterFlusher(q: Queue, t: Tid, f: Flusher): Queue {
    match f.at
    case Sample => q.(lock := Some(ByFlusher(t)))
    case Compare =>
      q.(lock := None, asleep := if ToLong(f.needed - q.removeSequence) > 0 then q.asleep + {t} else q.asleep)
    case Resume => q.(lock := Some(ByFlusher(t)))
    case _ => q
  }

  function AfterFlusher(s: State, t: Tid): State
    requires FlusherReady(s, t)
  {
    var f := s.flushers[t];
    s.(flushers := s.flushers[t := FlusherNext(s, f)],
       cpus := if f.at == Next then s.cpus else s.cpus[f.c := QueueAfterFlusher(s.cpus[f.c], t, f)])
  }

  /** create_workqueue_thread for every queue; fewer than 2^60 work_structs fit in a 64-bit memory. */
  ghost predicate Init(s: State) {
    && |s.works| < 0x1000_0000_0000_0000
    && (forall c :: c in s.online ==> c < |s.cpus|)
    && (forall c :: 0 <= c < |s.cpus| ==> s.cpus[c] == Queue(None, [], Clear, 0, 0, {}, [], []))
    && s.pending == {} && s.armed == {}
    && s.queuers == map[] && s.workers == map[] && s.flushers == map[]
    && s.accepted == multiset{} && s.inserted == multiset{} && s.called == multiset{}
  }

  ghost predicate Run(first: State, actions: seq<Action>, last: State)
    decreases |actions|
  {
    if actions == [] then first == last
    else Enabled(first, actions[0]) && Run(Apply(first, actions[0]), actions[1..], last)
  }

  ghost predicate Reachable(s: State) {
    exists first, actions :: Init(first) && Run(first, actions, s)
  }
}
