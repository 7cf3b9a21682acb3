/**
 * The virtual-CPU allocator of lib/lk/LinuxMode.C: a counting semaphore in front of a
 * bit mask that is updated by compare-and-store, for any number of threads.
 */
module VirtualCpu {
  import opened Prelude

  type Tid = nat
  type Cpu = nat

  datatype At =
    | WantPermit                         // setCPU: cpuControl->P()
    | Read                               // local = availCPU
    | Cas(local: set<Cpu>)               // take the lowest bit of `local`
    | Using(cpu: Cpu)                    // setCPU has returned
    | FreeRead(cpu: Cpu)                 // freeCPU: local = availCPU
    | FreeCas(cpu: Cpu, seen: set<Cpu>)  // put the bit back
    | Post                               // cpuControl->V()
    | Left

  /** `avail` is availCPU as the set of its one bits; `limit` is NR_CPUS. */
  datatype State = State(limit: nat, permits: int, avail: set<Cpu>, threads: map<Tid, At>)

  /** ffz(~local): the lowest one bit, or 64 if there is none. */
  function Lowest(local: set<Cpu>): (r: Cpu)
    ensures local != {} ==> IsLeast(local, r)
  {
    if local == {} then 64 else
    assert exists x: Cpu :: IsLeast(local, x) by {
      var x := HasLeast(local);
    }
    var x: Cpu :| IsLeast(local, x);
    x
  }

  datatype Action = Enter(t: Tid) | Free(t: Tid) | Step(t: Tid)

  predicate Enabled(s: State, a: Action) {
    match a
    case Enter(t) => t !in s.threads
    case Free(t) => t in s.threads && s.threads[t].Using?
    case Step(t) =>
      && t in s.threads && !s.threads[t].Using? && !s.threads[t].Left?
      && (s.threads[t].WantPermit? ==> s.permits > 0)
  }

  function Next(at: At, avail: set<Cpu>): At {
    match at
    case WantPermit => Read
    case Read => Cas(avail)
    case Cas(local) => if avail == local then Using(Lowest(local)) else Read
    case FreeRead(cpu) => FreeCas(cpu, avail)
    case FreeCas(cpu, seen) => if avail == seen then Post else FreeRead(cpu)
    case _ => Left
  }

  function AvailAfter(at: At, avail: set<Cpu>): set<Cpu> {
    match at
    case Cas(local) => if avail == local then local - {Lowest(local)} else avail
    case FreeCas(cpu, seen) => if avail == seen then seen + {cpu} else avail
    case _ => avail
  }

  function Apply(s: State, a: Action): State
    requires Enabled(s, a)
  {
    match a
    case Enter(t) => s.(threads := s.threads[t := WantPermit])
    case Free(t) => s.(threads := s.threads[t := FreeRead(s.threads[t].cpu)])
    case Step(t) =>
      var at := s.threads[t];
      State(s.limit,
            if at == WantPermit then s.permits - 1 else if at == Post then s.permits + 1 else s.permits,
            AvailAfter(at, s.avail),
            s.threads[t := Next(at, s.avail)])
  }

  /** (1 << n) - 1 as a set of bits. */
  function LowBits(n: nat): (r: set<Cpu>)
    ensures |r| == n && forall c: Cpu :: c in r <==> c < n
  {
    if n == 0 then {} else LowBits(n - 1) + {n - 1}
  }

  /** ClassInit: NR_CPUS permits and the low NR_CPUS bits. */
  ghost predicate Init(s: State) {
    s.permits == s.limit && s.avail == LowBits(s.limit) && s.threads == map[]
  }

  ghost predicate Run(first: State, actions: seq<Action>, last: State)
    decreases |actions|
  {
    if actions == [] then first == last
    else Enabled(first, actions[0]) && Run(Apply(first, actions[0]), actions[1..], last)
  }

  ghost predicate Reachable(s: State) {
    exists first, actions :: Init(first) && Run(first, actions, s)
  }

  // ------------------------------------------------- the invariant

  /** Between P and V. */
  predicate Admitted(at: At) {
    !at.WantPermit? && !at.Left?
  }

  /** Its CPU's bit is out of the mask. */
  predicate Owns(at: At) {
    at.Using? || at.FreeRead? || at.FreeCas?
  }

  ghost predicate InvCount(s: State) {
    && s.permits >= 0
    && s.permits + |Where(s.threads, Admitted)| == s.limit
    && |s.avail| + |Where(s.threads, Owns)| == s.limit
  }

  ghost predicate InvOwner(s: State) {
    && (forall c :: c in s.avail ==> c < s.limit)
    && (forall t :: t in s.threads && Owns(s.threads[t]) ==> s.threads[t].cpu < s.limit && s.threads[t].cpu !in s.avail)
    && (forall t, u :: t in s.threads && u in s.threads && Owns(s.threads[t]) && Owns(s.threads[u])
          ==> s.threads[t].cpu == s.threads[u].cpu ==> t == u)
  }

  ghost predicate InvMask(s: State) {
    forall t :: t in s.threads && s.threads[t].Cas? ==> s.threads[t].local != {}
  }

  ghost predicate Inv(s: State) {
    InvCount(s) && InvOwner(s) && InvMask(s)
  }

  /** A thread that has its permit and no CPU yet always finds a bit in the mask. */
  lemma MaskNotEmpty(s: State, t: Tid)
    requires InvCount(s) && t in s.threads && (s.threads[t].Read? || s.threads[t].Cas?)
    ensures s.avail != {}
  {
    var inside, owners := Where(s.threads, Admitted), Where(s.threads, Owns);
    assert owners <= inside - {t} && t in inside;
    Fits(owners, inside - {t});
  }

  lemma {:induction false} Fits<T>(a: set<T>, b: set<T>)
    requires a <= b
    ensures |a| <= |b|
  {
    assert b == a + (b - a);
  }

  lemma StepKeepsCount(s: State, t: Tid)
    requires Inv(s) && Enabled(s, Step(t))
    ensures InvCount(Apply(s, Step(t)))
  {
    var at := s.threads[t];
    WhereUpdate(s.threads, t, Next(at, s.avail), Admitted);
    WhereUpdate(s.threads, t, Next(at, s.avail), Owns);
    if at.Cas? {
      assert at.local != {};
    }
    if at.FreeCas? {
      assert at.cpu !in s.avail;
    }
  }

  lemma StepKeepsOwner(s: State, t: Tid)
    requires InvOwner(s) && InvMask(s) && Enabled(s, Step(t))
    ensures InvOwner(Apply(s, Step(t)))
  {
  }

  lemma StepKeepsMask(s: State, t: Tid)
    requires Inv(s) && Enabled(s, Step(t))
    ensures InvMask(Apply(s, Step(t)))
  {
    if s.threads[t].Read? {
      MaskNotEmpty(s, t);
    }
  }

  lemma Keeps(s: State, a: Action)
    requires Inv(s) && Enabled(s, a)
    ensures Inv(Apply(s, a))
  {
    match a
    case Enter(t) =>
      WhereUpdate(s.threads, t, WantPermit, Admitted);
      WhereUpdate(s.threads, t, WantPermit, Owns);
    case Free(t) =>
      WhereUpdate(s.threads, t, FreeRead(s.threads[t].cpu), Admitted);
      WhereUpdate(s.threads, t, FreeRead(s.threads[t].cpu), Owns);
    case Step(t) =>
      StepKeepsCount(s, t);
      StepKeepsOwner(s, t);
      StepKeepsMask(s, t);
  }

  lemma {:induction false} RunKeeps(first: State, actions: seq<Action>, last: State)
    requires Inv(first) && Run(first, actions, last)
    ensures Inv(last)
    decreases |actions|
  {
    if actions != [] {
      Keeps(first, actions[0]);
      RunKeeps(Apply(first, actions[0]), actions[1..], last);
    }
  }

  lemma ReachableInv(s: State)
    requires Reachable(s)
    ensures Inv(s)
  {
    var first, actions :| Init(first) && Run(first, actions, s);
    assert Where(first.threads, Admitted) == {} && Where(first.threads, Owns) == {};
    RunKeeps(first, actions, s);
  }

  // ------------------------------------------------- what it guarantees

  /** Threads using virtual CPUs at the same time have different ones, all below NR_CPUS. */
  lemma HoldersDistinct(s: State, t: Tid, u: Tid)
    requires Reachable(s) && t in s.threads && u in s.threads && Owns(s.threads[t]) && Owns(s.threads[u])
    ensures s.threads[t].cpu < s.limit
    ensures t != u ==> s.threads[t].cpu != s.threads[u].cpu
  {
    ReachableInv(s);
  }

  /** The assertions of setCPU: the mask read is never zero and the CPU found is below NR_CPUS. */
  lemma SetCpuAssertionsHold(s: State, t: Tid)
    requires Reachable(s) && t in s.threads && s.threads[t] == Read
    ensures s.avail != {} && Lowest(s.avail) < s.limit
  {
    ReachableInv(s);
    MaskNotEmpty(s, t);
  }

  lemma FullMask(avail: set<Cpu>, n: nat)
    requires avail <= LowBits(n) && |avail| == n
    ensures avail == LowBits(n)
  {
    var missing := LowBits(n) - avail;
    assert LowBits(n) == avail + missing;
    assert |missing| == 0;
  }

  /** At most NR_CPUS threads are between P and V, and when none is, every CPU is back in the mask. */
  lemma AllReturned(s: State)
    requires Reachable(s)
    ensures |Where(s.threads, Admitted)| <= s.limit
    ensures (forall t :: t in s.threads ==> !Admitted(s.threads[t])) ==>
              s.permits == s.limit && s.avail == LowBits(s.limit)
  {
    ReachableInv(s);
    if forall t :: t in s.threads ==> !Admitted(s.threads[t]) {
      assert Where(s.threads, Admitted) == {} && Where(s.threads, Owns) == {};
      FullMask(s.avail, s.limit);
    }
  }

  // ------------------------------------------------- what a call comes to

  /** In setCPU, or back from it with a CPU. */
  predicate Taking(at: At) {
    at.WantPermit? || at.Read? || at.Cas? || at.Using?
  }

  /** In freeCPU with this CPU, or past giving it back. */
  predicate Giving(at: At, cpu: Cpu) {
    at == FreeRead(cpu) || (at.FreeCas? && at.cpu == cpu) || at.Post? || at.Left?
  }

  lemma {:induction false} StaysTaking(first: State, actions: seq<Action>, last: State, t: Tid)
    requires Run(first, actions, last) && t in first.threads && Taking(first.threads[t]) && Free(t) !in actions
    ensures t in last.threads && Taking(last.threads[t])
    ensures first.threads[t].Using? ==> last.threads[t] == first.threads[t]
    decreases |actions|
  {
    if actions != [] {
      StaysTaking(Apply(first, actions[0]), actions[1..], last, t);
    }
  }

  /** setCPU does not return without a CPU. */
  lemma SetCpuGivesOne(s: State, t: Tid, actions: seq<Action>, s': State)
    requires Enabled(s, Enter(t)) && Run(Apply(s, Enter(t)), actions, s') && Free(t) !in actions
    ensures t in s'.threads && Taking(s'.threads[t])
  {
    StaysTaking(Apply(s, Enter(t)), actions, s', t);
  }

  /** The thread keeps its CPU until it calls freeCPU. */
  lemma CpuIsKept(s: State, t: Tid, actions: seq<Action>, s': State)
    requires Run(s, actions, s') && t in s.threads && s.threads[t].Using? && Free(t) !in actions
    ensures t in s'.threads && s'.threads[t] == s.threads[t]
  {
    StaysTaking(s, actions, s', t);
  }

  /** A step of freeCPU that gets past the mask puts the bit of the CPU back, and changes no other. */
  lemma FreeCpuPutsBack(s: State, t: Tid)
    requires Reachable(s) && Enabled(s, Step(t)) && s.threads[t].FreeCas?
    ensures var s', cpu := Apply(s, Step(t)), s.threads[t].cpu;
      && Giving(s'.threads[t], cpu) && cpu !in s.avail
      && (s'.threads[t] == Post ==> s'.avail == s.avail + {cpu})
      && (s'.threads[t] != Post ==> s'.avail == s.avail && s'.threads[t] == FreeRead(cpu))
  {
    ReachableInv(s);
  }

  lemma {:induction false} StaysGiving(first: State, actions: seq<Action>, last: State, t: Tid, cpu: Cpu)
    requires Run(first, actions, last) && t in first.threads && Giving(first.threads[t], cpu)
    ensures t in last.threads && Giving(last.threads[t], cpu)
    decreases |actions|
  {
    if actions != [] {
      StaysGiving(Apply(first, actions[0]), actions[1..], last, t, cpu);
    }
  }

  /** Once it has called freeCPU, a thread is giving its CPU back or has done so. */
  lemma FreeCpuGivesBack(s: State, t: Tid, actions: seq<Action>, s': State)
    requires Enabled(s, Free(t)) && Run(Apply(s, Free(t)), actions, s')
    ensures t in s'.threads && Giving(s'.threads[t], s.threads[t].cpu)
  {
    StaysGiving(Apply(s, Free(t)), actions, s', t, s.threads[t].cpu);
  }
}
