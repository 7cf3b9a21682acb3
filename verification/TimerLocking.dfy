/**
 * Who waits for whom in lib/lk/Timer.C: the timers' own locks and the TimerAnchor
 * locks, for any number of threads.  An anchor is identified with its address, which is
 * what __mod_timer orders by; `anchor` fields stand for timer->entry.next.
 */
module TimerLocking {
  import opened Prelude

  type Tid = nat
  type Timer = nat
  type Anchor = nat

  datatype Lock = TimerLock(tm: Timer) | AnchorLock(a: Anchor)

  datatype At =
    | WantTimer      // __mod_timer: acquire the timer's lock
    | Compute        // `repeat`: read entry.next and order the two anchors
    | WantFirst
    | WantSecond
    | Section        // recheck entry.next; release everything, or go back to `repeat`
    | WantAnchor     // delTimer, runTimer, cleanUp, add_timer_on: one anchor, nothing else held
    | HasAnchor
    | Gone

  /** `second` keeps its value when __mod_timer goes back to `repeat`. */
  datatype Thread = Thread(
    at: At, tm: Timer, own: Anchor, oldAnchor: Option<Anchor>, first: Anchor, second: Option<Anchor>)

  datatype State = State(threads: map<Tid, Thread>, entry: map<Timer, Option<Anchor>>)

  function Entry(s: State, tm: Timer): Option<Anchor> {
    if tm in s.entry then s.entry[tm] else None
  }

  function Held(k: Thread): set<Lock> {
    match k.at
    case Compute => {TimerLock(k.tm)}
    case WantFirst => {TimerLock(k.tm)}
    case WantSecond => {TimerLock(k.tm), AnchorLock(k.first)}
    case Section => {TimerLock(k.tm), AnchorLock(k.first)} + if k.second.Some? then {AnchorLock(k.second.value)} else {}
    case HasAnchor => {AnchorLock(k.own)}
    case _ => {}
  }

  function Wanted(k: Thread): Option<Lock> {
    match k.at
    case WantTimer => Some(TimerLock(k.tm))
    case WantFirst => Some(AnchorLock(k.first))
    case WantSecond => if k.second.Some? then Some(AnchorLock(k.second.value)) else None
    case WantAnchor => Some(AnchorLock(k.own))
    case _ => None
  }

  /** Thread `t` waits for a lock that `u` holds. */
  predicate Waits(s: State, t: Tid, u: Tid) {
    && t in s.threads && u in s.threads
    && Wanted(s.threads[t]).Some? && Wanted(s.threads[t]).value in Held(s.threads[u])
  }

  predicate Ready(s: State, t: Tid) {
    && t in s.threads && s.threads[t].at != Gone
    && forall u :: u in s.threads ==> !Waits(s, t, u)
  }

  /** Order the two anchors; `second` is assigned only when they differ. */
  function Ordered(k: Thread, oldAnchor: Option<Anchor>): Thread {
    if oldAnchor.None? || oldAnchor.value == k.own then k.(oldAnchor := oldAnchor, first := k.own)
    else if k.own < oldAnchor.value then k.(oldAnchor := oldAnchor, first := k.own, second := oldAnchor)
    else k.(oldAnchor := oldAnchor, first := oldAnchor.value, second := Some(k.own))
  }

  function Next(k: Thread, entry: Option<Anchor>): Thread {
    match k.at
    case WantTimer => k.(at := Compute)
    case Compute => Ordered(k, entry).(at := WantFirst)
    case WantFirst => k.(at := if k.second.Some? then WantSecond else Section)
    case WantSecond => k.(at := Section)
    case Section => k.(at := if entry != k.oldAnchor then Compute else Gone)
    case WantAnchor => k.(at := HasAnchor)
    case _ => k.(at := Gone)
  }

  datatype Action =
    | ModTimer(t: Tid, tm: Timer, own: Anchor)
    | UseAnchor(t: Tid, a: Anchor)
    | Step(t: Tid, armed: bool)             // `armed`: timer->base was non-null at line 500

  predicate Enabled(s: State, a: Action) {
    match a
    case ModTimer(t, _, _) => t !in s.threads
    case UseAnchor(t, _) => t !in s.threads
    case Step(t, _) => Ready(s, t)
  }

  /** Under the timer's lock entry.next is cleared if the timer is not armed, and set when the section succeeds. */
  function EntryAfter(s: State, k: Thread, armed: bool): map<Timer, Option<Anchor>>
  {
    if k.at == WantTimer && !armed then s.entry[k.tm := None]
    else if k.at == Section && Entry(s, k.tm) == k.oldAnchor then s.entry[k.tm := Some(k.own)]
    else s.entry
  }

  function Apply(s: State, a: Action): State
    requires Enabled(s, a)
  {
    match a
    case ModTimer(t, tm, own) => s.(threads := s.threads[t := Thread(WantTimer, tm, own, None, own, None)])
    case UseAnchor(t, a) => s.(threads := s.threads[t := Thread(WantAnchor, 0, a, None, a, None)])
    case Step(t, armed) =>
      var k := s.threads[t];
      State(s.threads[t := Next(k, Entry(s, k.tm))], EntryAfter(s, k, armed))
  }

  ghost predicate Init(s: State) {
    s.threads == map[]
  }

  ghost predicate Run(first: State, actions: seq<Action>, last: State)
    decreases |actions|
  {
    if actions == [] then first == last
    else Enabled(first, actions[0]) && Run(Apply(first, actions[0]), actions[1..], last)
  }

  ghost predicate Reachable(s: State) {
    exists first, actions :: Init(first) && Run(first, actions, s)
  }

  // ------------------------------------------------- the lock order

  /** Timer locks come before anchors, anchors go by address. */
  function Rank(l: Lock): nat {
    match l
    case TimerLock(_) => 0
    case AnchorLock(a) => a + 1
  }

  /** Whatever the thread holds ranks below what it wants. */
  ghost predicate Climbs(k: Thread) {
    Wanted(k).Some? ==> forall l :: l in Held(k) ==> Rank(l) < Rank(Wanted(k).value)
  }

  ghost predicate InvThread(k: Thread, entry: Option<Anchor>) {
    && (k.at == WantTimer || k.at == Compute ==> k.second.None?)
    && (k.second.Some? ==> k.first < k.second.value)
    && (k.at == WantFirst || k.at == WantSecond || k.at == Section ==>
          k.oldAnchor == entry && Covers(k, k.own) && (entry.Some? ==> Covers(k, entry.value)))
  }

  /** The anchor is one of the two that the thread has ordered. */
  predicate Covers(k: Thread, a: Anchor) {
    a == k.first || k.second == Some(a)
  }

  ghost predicate Inv(s: State) {
    && (forall t :: t in s.threads ==> InvThread(s.threads[t], Entry(s, s.threads[t].tm)))
    && (forall t, u, l ::
          t in s.threads && u in s.threads && l in Held(s.threads[t]) && l in Held(s.threads[u]) ==> t == u)
  }

  lemma StepKeepsThread(k: Thread, entry: Option<Anchor>)
    requires InvThread(k, entry)
    ensures k.at != WantTimer ==> Next(k, entry).at == Gone || InvThread(Next(k, entry), entry)
    ensures forall l :: l in Held(Next(k, entry)) ==> l in Held(k) || Wanted(k) == Some(l)
  {
  }

  lemma StepKeeps(s: State, t: Tid, armed: bool)
    requires Inv(s) && Ready(s, t)
    ensures Inv(Apply(s, Step(t, armed)))
  {
    var s', k := Apply(s, Step(t, armed)), s.threads[t];
    StepKeepsThread(k, Entry(s, k.tm));
    forall u | u in s'.threads
      ensures InvThread(s'.threads[u], Entry(s', s'.threads[u].tm))
    {
      if u != t && s.threads[u].tm == k.tm && TimerLock(k.tm) in Held(s.threads[u]) {
        assert InvThread(s.threads[u], Entry(s, k.tm));
        assert !Waits(s, t, u);
        assert TimerLock(k.tm) !in Held(k);
      }
    }
    forall u, l | u in s'.threads && l in Held(s'.threads[u]) && l in Held(s'.threads[t])
      ensures u == t
    {
      assert !Waits(s, t, u);
    }
  }

  lemma Keeps(s: State, a: Action)
    requires Inv(s) && Enabled(s, a)
    ensures Inv(Apply(s, a))
  {
    if a.Step? {
      StepKeeps(s, a.t, a.armed);
    }
  }

  lemma {:induction false} RunKeeps(first: State, actions: seq<Action>, last: State)
    requires Inv(first) && Run(first, actions, last)
    ensures Inv(last)
    decreases |actions|
  {
    if actions != [] {
      Keeps(first, actions[0]);
      RunKeeps(Apply(first, actions[0]), actions[1..], last);
    }
  }

  lemma ReachableInv(s: State)
    requires Reachable(s)
    ensures Inv(s)
  {
    var first, actions :| Init(first) && Run(first, actions, s);
    RunKeeps(first, actions, s);
  }

  // ------------------------------------------------- no deadlock

  /** Each thread of the sequence waits for the next, and the last for the first. */
  ghost predicate WaitCycle(s: State, ts: seq<Tid>) {
    ts != [] && forall i :: 0 <= i < |ts| ==> Waits(s, ts[i], ts[if i + 1 == |ts| then 0 else i + 1])
  }

  lemma ThreadClimbs(k: Thread, entry: Option<Anchor>)
    requires InvThread(k, entry)
    ensures Climbs(k)
  {
  }

  /** Along a chain of waiting threads the wanted locks climb. */
  lemma {:induction false} ChainClimbs(s: State, ts: seq<Tid>, i: nat)
    requires Inv(s) && WaitCycle(s, ts) && i < |ts|
    ensures ts[i] in s.threads && Wanted(s.threads[ts[i]]).Some?
    ensures ts[0] in s.threads && Wanted(s.threads[ts[0]]).Some?
    ensures Rank(Wanted(s.threads[ts[0]]).value) + i <= Rank(Wanted(s.threads[ts[i]]).value)
  {
    assert Waits(s, ts[0], ts[if 1 == |ts| then 0 else 1]);
    if i > 0 {
      ChainClimbs(s, ts, i - 1);
      assert Waits(s, ts[i - 1], ts[i]) && Waits(s, ts[i], ts[if i + 1 == |ts| then 0 else i + 1]);
      ThreadClimbs(s.threads[ts[i]], Entry(s, s.threads[ts[i]].tm));
    }
  }

  /** No set of threads, however many, waits in a ring. */
  lemma NoWaitCycle(s: State, ts: seq<Tid>)
    requires Reachable(s)
    ensures !WaitCycle(s, ts)
  {
    ReachableInv(s);
    if WaitCycle(s, ts) {
      var n := |ts| - 1;
      ChainClimbs(s, ts, n);
      assert Waits(s, ts[n], ts[0]);
      ThreadClimbs(s.threads[ts[0]], Entry(s, s.threads[ts[0]].tm));
    }
  }

  /** Every lock wanted ranks below a bound. */
  lemma {:induction false} WantedBound(threads: map<Tid, Thread>) returns (n: nat)
    ensures forall t :: t in threads && Wanted(threads[t]).Some? ==> Rank(Wanted(threads[t]).value) < n
    decreases |threads|
  {
    if threads == map[] {
      n := 0;
    } else {
      var t :| t in threads;
      var rest := threads - {t};
      assert forall u :: u in threads && u != t ==> u in rest && rest[u] == threads[u];
      n := WantedBound(rest);
      if Wanted(threads[t]).Some? && Rank(Wanted(threads[t]).value) >= n {
        n := Rank(Wanted(threads[t]).value) + 1;
      }
    }
  }

  /** Following a waiting thread leads to one that can move. */
  lemma {:induction false} FollowToReady(s: State, t: Tid, n: nat) returns (u: Tid)
    requires Inv(s) && t in s.threads && s.threads[t].at != Gone
    requires forall v :: v in s.threads && Wanted(s.threads[v]).Some? ==> Rank(Wanted(s.threads[v]).value) < n
    ensures Ready(s, u)
    decreases if Wanted(s.threads[t]).Some? then n - Rank(Wanted(s.threads[t]).value) else 0
  {
    if Ready(s, t) {
      u := t;
    } else {
      var v :| v in s.threads && Waits(s, t, v);
      ThreadClimbs(s.threads[v], Entry(s, s.threads[v].tm));
      u := FollowToReady(s, v, n);
    }
  }

  /** As long as some call has not returned, some thread can take a step. */
  lemma SomeoneMoves(s: State, t: Tid) returns (u: Tid)
    requires Reachable(s) && t in s.threads && s.threads[t].at != Gone
    ensures Ready(s, u)
  {
    ReachableInv(s);
    var n := WantedBound(s.threads);
    u := FollowToReady(s, t, n);
  }

  /** The section always succeeds: `repeat` is never reached again. */
  lemma NeverRepeats(s: State, t: Tid)
    requires Reachable(s) && t in s.threads && s.threads[t].at == Section
    ensures Next(s.threads[t], Entry(s, s.threads[t].tm)).at == Gone
  {
    ReachableInv(s);
  }

  // ------------------------------------------------- the stale second anchor

  /**
   * `second` is not reset at `repeat`.  Were entry.next to change under a modifier, its second
   * pass could order its own anchor against itself, and the thread would wait for a lock it
   * holds.  It would do so exactly if the first pass had taken the other anchor first and the
   * second pass finds no other anchor.  NeverRepeats rules this out.
   */
  lemma RepeatSelfDeadlocks(k: Thread, before: Option<Anchor>, after: Option<Anchor>)
    requires k.at == Compute && k.second.None? && before != after
    ensures var again := Ordered(Ordered(k, before), after);
      again.second == Some(again.first) <==>
        before.Some? && before.value < k.own && (after.None? || after.value == k.own)
  {
  }

  // ------------------------------------------------- what a call comes to

  /**
   * In its section a modifier holds the timer's lock, its own anchor's and that of the anchor the
   * timer is on, and nobody else holds any of them.
   */
  lemma SectionIsLocked(s: State, t: Tid, u: Tid)
    requires Reachable(s) && t in s.threads && s.threads[t].at == Section
    ensures var k := s.threads[t];
      && TimerLock(k.tm) in Held(k) && AnchorLock(k.own) in Held(k)
      && (Entry(s, k.tm).Some? ==> AnchorLock(Entry(s, k.tm).value) in Held(k))
    ensures u in s.threads && u != t ==> Held(s.threads[u]) !! Held(s.threads[t])
  {
    ReachableInv(s);
    assert InvThread(s.threads[t], Entry(s, s.threads[t].tm));
  }

  /** Inside __mod_timer. */
  predicate Modifying(k: Thread) {
    k.at == WantTimer || k.at == Compute || k.at == WantFirst || k.at == WantSecond || k.at == Section
  }

  /** One step of __mod_timer: it is inside still, or has set the timer's anchor to its own. */
  lemma ModifierStep(s: State, t: Tid, armed: bool)
    requires Inv(s) && Ready(s, t) && Modifying(s.threads[t])
    ensures var s', k := Apply(s, Step(t, armed)), s.threads[t];
      && s'.threads[t].tm == k.tm && s'.threads[t].own == k.own
      && (Modifying(s'.threads[t]) || (s'.threads[t].at == Gone && Entry(s', k.tm) == Some(k.own)))
  {
  }

  /** A call of __mod_timer that has returned had set the timer's anchor to its own when it did. */
  lemma {:induction false} ModifierSets(first: State, actions: seq<Action>, last: State, t: Tid)
      returns (n: nat, mid: State)
    requires Inv(first) && Run(first, actions, last) && t in first.threads && Modifying(first.threads[t])
    ensures t in last.threads
    ensures last.threads[t].tm == first.threads[t].tm && last.threads[t].own == first.threads[t].own
    ensures Modifying(last.threads[t]) || last.threads[t].at == Gone
    ensures n <= |actions| && Run(first, actions[..n], mid)
    ensures last.threads[t].at == Gone ==> Entry(mid, first.threads[t].tm) == Some(first.threads[t].own)
    decreases |actions|
  {
    if actions == [] {
      n, mid := 0, first;
    } else {
      var next := Apply(first, actions[0]);
      Keeps(first, actions[0]);
      if actions[0].Step? && actions[0].t == t {
        ModifierStep(first, t, actions[0].armed);
      }
      if Modifying(next.threads[t]) {
        n, mid := ModifierSets(next, actions[1..], last, t);
        n := n + 1;
        assert actions[..n][1..] == actions[1..][..n - 1];
      } else {
        GoneStays(next, actions[1..], last, t);
        n, mid := 1, next;
        assert actions[..1][1..] == [];
      }
    }
  }

  lemma {:induction false} GoneStays(first: State, actions: seq<Action>, last: State, t: Tid)
    requires Run(first, actions, last) && t in first.threads && first.threads[t].at == Gone
    ensures t in last.threads && last.threads[t] == first.threads[t]
    decreases |actions|
  {
    if actions != [] {
      GoneStays(Apply(first, actions[0]), actions[1..], last, t);
    }
  }

  /** The same from the call on. */
  lemma ModTimerSets(s: State, t: Tid, tm: Timer, own: Anchor, actions: seq<Action>, s': State)
      returns (n: nat, mid: State)
    requires Reachable(s) && Enabled(s, ModTimer(t, tm, own)) && Run(Apply(s, ModTimer(t, tm, own)), actions, s')
    ensures t in s'.threads && (Modifying(s'.threads[t]) || s'.threads[t].at == Gone)
    ensures n <= |actions| && Run(Apply(s, ModTimer(t, tm, own)), actions[..n], mid)
    ensures s'.threads[t].at == Gone ==> Entry(mid, tm) == Some(own)
  {
    ReachableInv(s);
    Keeps(s, ModTimer(t, tm, own));
    n, mid := ModifierSets(Apply(s, ModTimer(t, tm, own)), actions, s', t);
  }

  /** A call that uses an anchor waits for its lock, has it alone, or has returned. */
  lemma {:induction false} AnchorUsed(first: State, actions: seq<Action>, last: State, t: Tid, a: Anchor)
    requires Inv(first) && Run(first, actions, last) && t in first.threads && UsesAnchor(first.threads[t], a)
    ensures t in last.threads && UsesAnchor(last.threads[t], a)
    decreases |actions|
  {
    if actions != [] {
      Keeps(first, actions[0]);
      AnchorUsed(Apply(first, actions[0]), actions[1..], last, t, a);
    }
  }

  predicate UsesAnchor(k: Thread, a: Anchor) {
    k.own == a && (k.at == WantAnchor || k.at == HasAnchor || k.at == Gone)
  }

  lemma UseAnchorHolds(s: State, t: Tid, a: Anchor, actions: seq<Action>, s': State, u: Tid)
    requires Reachable(s) && Enabled(s, UseAnchor(t, a)) && Run(Apply(s, UseAnchor(t, a)), actions, s')
    ensures t in s'.threads && UsesAnchor(s'.threads[t], a)
    ensures s'.threads[t].at == HasAnchor ==>
              && AnchorLock(a) in Held(s'.threads[t])
              && (u in s'.threads && u != t ==> AnchorLock(a) !in Held(s'.threads[u]))
  {
    ReachableInv(s);
    Keeps(s, UseAnchor(t, a));
    AnchorUsed(Apply(s, UseAnchor(t, a)), actions, s', t, a);
    RunKeeps(Apply(s, UseAnchor(t, a)), actions, s');
  }
}
