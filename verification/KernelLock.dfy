/**
 * lock_kernel and unlock_kernel of lib/lk/Locks.C: a recursive lock over a spin lock,
 * whose owner is tested without holding it.  Any number of threads, one shared-memory
 * access a step; each thread's calls are properly paired.
 */
module KernelLock {
  import opened Prelude

  type Tid = nat

  datatype At =
    | Outside      // in no call
    | Test         // lock_kernel: is owner the current thread?
    | Deepen       // it is: ++global_lock_depth, return
    | Acquire      // it is not: spin_lock(globalLock)
    | Count        // ++global_lock_depth
    | Claim        // owner = current thread, return
    | Drop         // unlock_kernel: --global_lock_depth
    | TestZero     // global_lock_depth == 0?
    | Disown       // owner = NULL
    | Release      // spin_unlock(globalLock), return

  /** `nest` is how many lock_kernel calls of the thread have returned without a matching unlock_kernel. */
  datatype Thread = Thread(at: At, nest: nat)

  datatype State = State(lock: Option<Tid>, owner: Option<Tid>, depth: int, threads: map<Tid, Thread>)

  datatype Action = Start(t: Tid) | Lock(t: Tid) | Unlock(t: Tid) | Step(t: Tid)

  predicate Enabled(s: State, a: Action) {
    match a
    case Start(t) => t !in s.threads
    case Lock(t) => t in s.threads && s.threads[t].at == Outside
    case Unlock(t) => t in s.threads && s.threads[t].at == Outside && s.threads[t].nest > 0
    case Step(t) => t in s.threads && s.threads[t].at != Outside && (s.threads[t].at == Acquire ==> s.lock.None?)
  }

  function Next(k: Thread, mine: bool, depth: int): Thread {
    match k.at
    case Outside => k
    case Test => k.(at := if mine then Deepen else Acquire)
    case Deepen => Thread(Outside, k.nest + 1)
    case Acquire => k.(at := Count)
    case Count => k.(at := Claim)
    case Claim => Thread(Outside, k.nest + 1)
    case Drop => k.(at := TestZero)
    case TestZero => k.(at := if depth == 0 then Disown else Outside)
    case Disown => k.(at := Release)
    case Release => k.(at := Outside)
  }

  function Apply(s: State, a: Action): State
    requires Enabled(s, a)
  {
    match a
    case Start(t) => s.(threads := s.threads[t := Thread(Outside, 0)])
    case Lock(t) => s.(threads := s.threads[t := s.threads[t].(at := Test)])
    case Unlock(t) => s.(threads := s.threads[t := Thread(Drop, s.threads[t].nest - 1)])
    case Step(t) =>
      var k := s.threads[t];
      State(if k.at == Acquire then Some(t) else if k.at == Release then None else s.lock,
            if k.at == Claim then Some(t) else if k.at == Disown then None else s.owner,
            if k.at == Deepen || k.at == Count then s.depth + 1 else if k.at == Drop then s.depth - 1 else s.depth,
            s.threads[t := Next(k, s.owner == Some(t), s.depth)])
  }

  ghost predicate Init(s: State) {
    s.lock == None && s.owner == None && s.depth == 0 && s.threads == map[]
  }

  ghost predicate Run(first: State, actions: seq<Action>, last: State)
    decreases |actions|
  {
    if actions == [] then first == last
    else Enabled(first, actions[0]) && Run(Apply(first, actions[0]), actions[1..], last)
  }

  ghost predicate Reachable(s: State) {
    exists first, actions :: Init(first) && Run(first, actions, s)
  }

  // ------------------------------------------------- the invariant

  /** The thread holds globalLock: it is inside, or between acquiring and releasing it. */
  predicate Holds(k: Thread) {
    || k.nest > 0 || k.at == Deepen || k.at == Count || k.at == Claim
    || k.at == Drop || k.at == TestZero || k.at == Disown || k.at == Release
  }

  /** What the holder's position says about owner and depth. */
  predicate HolderOk(s: State, t: Tid, k: Thread) {
    && (k.at == Acquire ==> k.nest == 0)
    && (k.at == Count || k.at == Claim || k.at == Disown || k.at == Release ==> k.nest == 0)
    && (Holds(k) ==>
          && s.owner == (if k.at == Count || k.at == Claim || k.at == Release then None else Some(t))
          && s.depth == k.nest + (if k.at == Claim || k.at == Drop then 1 else 0))
  }

  ghost predicate Inv(s: State) {
    && (forall t :: t in s.threads ==> HolderOk(s, t, s.threads[t]))
    && (forall t :: t in s.threads && Holds(s.threads[t]) <==> s.lock == Some(t))
    && (s.lock.None? ==> s.owner.None? && s.depth == 0)
  }

  lemma Keeps(s: State, a: Action)
    requires Inv(s) && Enabled(s, a)
    ensures Inv(Apply(s, a))
  {
    var s' := Apply(s, a);
    forall u
      ensures u in s'.threads && Holds(s'.threads[u]) <==> s'.lock == Some(u)
    {
      assert u in s.threads && Holds(s.threads[u]) <==> s.lock == Some(u);
      assert a.t in s.threads && Holds(s.threads[a.t]) <==> s.lock == Some(a.t);
    }
  }

  lemma {:induction false} RunKeeps(first: State, actions: seq<Action>, last: State)
    requires Inv(first) && Run(first, actions, last)
    ensures Inv(last)
    decreases |actions|
  {
    if actions != [] {
      Keeps(first, actions[0]);
      RunKeeps(Apply(first, actions[0]), actions[1..], last);
    }
  }

  lemma ReachableInv(s: State)
    requires Reachable(s)
    ensures Inv(s)
  {
    var first, actions :| Init(first) && Run(first, actions, s);
    RunKeeps(first, actions, s);
  }

  // ------------------------------------------------- what it guarantees

  /** The unlocked owner test is exact: it succeeds for a thread exactly if the thread already holds the lock. */
  lemma OwnerTestIsExact(s: State, t: Tid)
    requires Reachable(s) && t in s.threads && s.threads[t].at == Test
    ensures s.owner == Some(t) <==> s.threads[t].nest > 0
    ensures s.owner == Some(t) ==> s.lock == Some(t) && s.depth == s.threads[t].nest
  {
    ReachableInv(s);
  }

  /** An owner holds the lock, and between calls the depth is its nesting. */
  lemma OwnerHoldsLock(s: State, t: Tid)
    requires Reachable(s) && s.owner == Some(t)
    ensures s.lock == Some(t) && t in s.threads
    ensures s.threads[t].at == Outside ==> s.depth == s.threads[t].nest > 0
  {
    ReachableInv(s);
  }

  /** No two threads are ever inside. */
  lemma MutualExclusion(s: State, t: Tid, u: Tid)
    requires Reachable(s) && t in s.threads && u in s.threads && s.threads[t].nest > 0 && s.threads[u].nest > 0
    ensures t == u
  {
    ReachableInv(s);
  }

  /** unlock_kernel gives the lock up exactly when it undoes the outermost lock_kernel. */
  lemma ReleasedWithOutermost(s: State, t: Tid)
    requires Reachable(s) && t in s.threads && s.threads[t].at == TestZero
    ensures Next(s.threads[t], s.owner == Some(t), s.depth).at == Disown <==> s.threads[t].nest == 0
  {
    ReachableInv(s);
  }

  // ------------------------------------------------- what a call comes to

  /** The nesting the thread will have when its present call returns. */
  function DueNest(k: Thread): nat {
    if k.at == Test || k.at == Deepen || k.at == Acquire || k.at == Count || k.at == Claim then k.nest + 1 else k.nest
  }

  lemma {:induction false} RunKeepsDue(first: State, actions: seq<Action>, last: State, t: Tid)
    requires Run(first, actions, last) && t in first.threads && Lock(t) !in actions && Unlock(t) !in actions
    ensures t in last.threads && DueNest(last.threads[t]) == DueNest(first.threads[t])
    decreases |actions|
  {
    if actions != [] {
      RunKeepsDue(Apply(first, actions[0]), actions[1..], last, t);
    }
  }

  /**
   * When a thread comes back from lock_kernel it owns the lock one level deeper; from
   * unlock_kernel, one level less deep, and owns it exactly if a level is left. A new thread has
   * no level.
   */
  lemma CallsTakeEffect(s: State, a: Action, actions: seq<Action>, s': State)
    requires Reachable(s) && Enabled(s, a) && !a.Step? && Run(Apply(s, a), actions, s')
    requires Lock(a.t) !in actions && Unlock(a.t) !in actions
    requires a.t in s'.threads ==> s'.threads[a.t].at == Outside
    ensures a.t in s'.threads
    ensures s'.threads[a.t].nest ==
            if a.Start? then 0 else if a.Lock? then s.threads[a.t].nest + 1 else s.threads[a.t].nest - 1
    ensures s'.owner == Some(a.t) <==> s'.threads[a.t].nest > 0
    ensures s'.lock == Some(a.t) <==> s'.threads[a.t].nest > 0
  {
    ReachableInv(s);
    Keeps(s, a);
    RunKeeps(Apply(s, a), actions, s');
    RunKeepsDue(Apply(s, a), actions, s', a.t);
    if s'.owner == Some(a.t) && s'.lock.Some? {
      assert HolderOk(s', s'.lock.value, s'.threads[s'.lock.value]);
    }
  }
}
