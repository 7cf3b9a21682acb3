/** What every step of the virtual processor keeps. */
module VpExclusionProof {
  import opened Prelude
  import opened VpLocks
  import opened VpExclusion

  // ------------------------------------------------- one thread

  /** The number of irqsave locks in a nest. */
  function Hard(nest: seq<Lock>): nat {
    if nest == [] then 0 else (if nest[0].Irq? then 1 else 0) + Hard(nest[1..])
  }

  /** Every irqsave saved the number of irqsave locks outside it. */
  predicate Saved(nest: seq<Lock>) {
    nest != [] ==> (nest[0].Irq? ==> nest[0].saved == Hard(nest[1..])) && Saved(nest[1..])
  }

  lemma Pushed(l: Lock, nest: seq<Lock>)
    requires Saved(nest) && (l.Irq? ==> l.saved == Hard(nest))
    ensures Saved([l] + nest) && Hard([l] + nest) == Hard(nest) + (if l.Irq? then 1 else 0)
  {
  }

  /** A thread that bars nothing and counts nothing. */
  predicate QuietOk(th: Thread) {
    && th.nest == []
    && (th.mode != InterruptMode ==>
          th.groups == All() && (th.at == Enter || th.at == Body || th.at == LockTested(true)))
    && (th.mode == InterruptMode ==>
          || (th.at == Enter && th.groups == {Interrupt})
          || (th.at == Finish && th.groups == All()))
  }

  /** The thread bars the interrupt group. */
  predicate Masks(th: Thread) {
    Hard(th.nest) > 0 || th.at == IrqDropped
  }

  /** A thread outside the syscall group. */
  predicate OwnerOk(th: Thread) {
    && th.mode != InterruptMode
    && Saved(th.nest)
    && th.groups == All() - {Syscall} - (if Masks(th) then {Interrupt} else {})
    && match th.at
       case Enter => false
       case Body => th.nest != []
       case LockTested(bar) => th.nest != [] && !bar
       case LockBarred => true
       case Dropped => true
       case DropTested(open) => open <==> th.nest == []
       case IrqDropped => true
       case Finish => false
  }

  /** An interrupt between its entry and its destroy. */
  predicate ActiveOk(th: Thread) {
    && th.mode == InterruptMode
    && Saved(th.nest)
    && th.groups == {}
    && !th.at.Enter? && !th.at.Finish? && th.at != LockTested(true) && th.at != DropTested(true)
  }

  predicate NonIrq(n: Option<Thread>) {
    n.Some? ==> OwnerOk(n.value)
  }

  predicate InIrq(i: Option<Thread>) {
    i.Some? ==> ActiveOk(i.value)
  }

  function NestOf(o: Option<Thread>): seq<Lock> {
    if o.Some? then o.value.nest else []
  }

  predicate MasksOf(o: Option<Thread>) {
    o.Some? && Masks(o.value)
  }

  /** thread_info and the bars, from the thread outside the syscall group and the active interrupt. */
  function InfoFrom(n: Option<Thread>, i: Option<Thread>): Info {
    var hard := Hard(NestOf(n)) + Hard(NestOf(i));
    Info(|NestOf(n)| + |NestOf(i)|, hard, i.Some?, hard > 0,
         (if n.Some? then {Syscall} else {}) + (if i.Some? || MasksOf(n) then {Interrupt} else {}))
  }

  /** The actions that change one thread and thread_info. */
  predicate Local(a: Action, th: Thread) {
    match a
    case LockSpin(_) => th.at == Body
    case LockIrq(_) => th.at == Body
    case Unlock(_) => th.at == Body && th.nest != []
    case Destroy(_) => th.at == Body && th.nest == [] && th.mode == SysCall
    case Step(_) => th.at != Body
    case _ => false
  }

  lemma ActiveMoves(a: Action, th: Thread, n: Option<Thread>)
    requires Local(a, th) && ActiveOk(th) && NonIrq(n) && !MasksOf(n)
    ensures var v := InfoFrom(n, Some(th));
            var th' := ThreadAfter(a, th, v);
            ActiveOk(th') && InfoAfter(a, th, v) == InfoFrom(n, Some(th'))
  {
  }

  lemma OwnerMoves(a: Action, th: Thread)
    requires Local(a, th) && OwnerOk(th)
    ensures var v := InfoFrom(Some(th), None);
            var th', v' := ThreadAfter(a, th, v), InfoAfter(a, th, v);
            (OwnerOk(th') && v' == InfoFrom(Some(th'), None)) || (QuietOk(th') && v' == InfoFrom(None, None))
  {
  }

  lemma QuietMoves(a: Action, th: Thread)
    requires Local(a, th) && QuietOk(th) && th.groups == All()
    ensures var v := InfoFrom(None, None);
            var th', v' := ThreadAfter(a, th, v), InfoAfter(a, th, v);
            (OwnerOk(th') && v' == InfoFrom(Some(th'), None)) || (QuietOk(th') && v' == InfoFrom(None, None))
  {
    if a.LockIrq? {
      Pushed(Irq(0), th.nest);
    }
  }

  /** An interrupt gets past its entry. */
  lemma InterruptEnters(th: Thread, t: Tid, n: Option<Thread>)
    requires QuietOk(th) && th.mode == InterruptMode && th.at == Enter && NonIrq(n) && !MasksOf(n)
    ensures var v := InfoFrom(n, None);
            var th' := ThreadAfter(Step(t), th, v);
            ActiveOk(th') && InfoAfter(Step(t), th, v) == InfoFrom(n, Some(th'))
  {
  }

  // ------------------------------------------------- the whole state

  /** The thread outside the syscall group and the active interrupt. */
  datatype Aux = Aux(n: Option<Tid>, i: Option<Tid>)

  function ThreadAt(s: State, o: Option<Tid>): Option<Thread> {
    if o.Some? && o.value in s.threads then Some(s.threads[o.value]) else None
  }

  ghost predicate InvInfo(s: State, g: Aux) {
    && (g.n.Some? ==> g.n.value in s.threads)
    && (g.i.Some? ==> g.i.value in s.threads)
    && NonIrq(ThreadAt(s, g.n)) && InIrq(ThreadAt(s, g.i))
    && (g.i.Some? ==> !MasksOf(ThreadAt(s, g.n)))
    && InfoOf(s) == InfoFrom(ThreadAt(s, g.n), ThreadAt(s, g.i))
  }

  ghost predicate InvQuiet(s: State, g: Aux) {
    forall t :: t in s.threads && g.n != Some(t) && g.i != Some(t) ==> QuietOk(s.threads[t])
  }

  /** The survivor is the one interrupt that waits to run softirqs. */
  ghost predicate InvSurvivor(s: State) {
    forall t: Tid :: s.survivor == Some(t) <==> t in s.threads && s.threads[t].at == Finish
  }

  ghost predicate InvWith(s: State, g: Aux) {
    InvInfo(s, g) && InvQuiet(s, g) && InvSurvivor(s)
  }

  /** Who can run: the active interrupt; else the owner; else anyone. */
  lemma WhoRuns(s: State, g: Aux, t: Tid)
    requires InvInfo(s, g) && InvQuiet(s, g) && Runnable(s, t)
    ensures g.n == Some(t) ==> g.i == None
    ensures g.n != Some(t) && g.i != Some(t) && s.threads[t].groups == All() ==> g == Aux(None, None)
    ensures g.n != Some(t) && g.i != Some(t) && s.threads[t].groups != All() ==>
              && s.threads[t].mode == InterruptMode && s.threads[t].at == Enter
              && g.i == None && !MasksOf(ThreadAt(s, g.n))
  {
  }

  lemma ActiveKeeps(s: State, a: Action, g: Aux)
    requires InvInfo(s, g) && InvQuiet(s, g) && Enabled(s, a) && g.i == Some(a.t) && Local(a, s.threads[a.t])
    ensures InvInfo(Apply(s, a), g) && InvQuiet(Apply(s, a), g)
  {
    ActiveMoves(a, s.threads[a.t], ThreadAt(s, g.n));
    assert ThreadAt(Apply(s, a), g.n) == ThreadAt(s, g.n);
  }

  /** A step of the owner, or of a quiet thread while there is no owner and no interrupt. */
  lemma OwnerKeeps(s: State, a: Action, g: Aux) returns (g': Aux)
    requires InvInfo(s, g) && InvQuiet(s, g) && Enabled(s, a) && a.t in s.threads && Local(a, s.threads[a.t])
    requires g == Aux(Some(a.t), None) || (g == Aux(None, None) && s.threads[a.t].groups == All())
    ensures InvInfo(Apply(s, a), g') && InvQuiet(Apply(s, a), g')
  {
    var th, v := s.threads[a.t], InfoOf(s);
    if g.n == None {
      QuietMoves(a, th);
    } else {
      OwnerMoves(a, th);
    }
    g' := Aux(if OwnerOk(ThreadAfter(a, th, v)) then Some(a.t) else None, None);
  }

  lemma EntryKeeps(s: State, t: Tid, g: Aux)
    requires InvInfo(s, g) && InvQuiet(s, g) && Enabled(s, Step(t)) && g.i == None && !MasksOf(ThreadAt(s, g.n))
    requires s.threads[t].mode == InterruptMode && s.threads[t].at == Enter && g.n != Some(t)
    ensures InvInfo(Apply(s, Step(t)), g.(i := Some(t))) && InvQuiet(Apply(s, Step(t)), g.(i := Some(t)))
  {
    InterruptEnters(s.threads[t], t, ThreadAt(s, g.n));
    assert ThreadAt(Apply(s, Step(t)), g.n) == ThreadAt(s, g.n);
  }

  lemma LocalKeepsInfo(s: State, a: Action, g: Aux) returns (g': Aux)
    requires InvInfo(s, g) && InvQuiet(s, g) && Enabled(s, a) && a.t in s.threads && Local(a, s.threads[a.t])
    ensures InvInfo(Apply(s, a), g') && InvQuiet(Apply(s, a), g')
  {
    WhoRuns(s, g, a.t);
    if g.i == Some(a.t) {
      ActiveKeeps(s, a, g);
      g' := g;
    } else if g.n == Some(a.t) || s.threads[a.t].groups == All() {
      g' := OwnerKeeps(s, a, g);
    } else {
      EntryKeeps(s, a.t, g);
      g' := g.(i := Some(a.t));
    }
  }

  lemma LocalKeepsSurvivor(s: State, a: Action)
    requires InvSurvivor(s) && Enabled(s, a)
    requires a.t in s.threads && Local(a, s.threads[a.t])
    ensures InvSurvivor(Apply(s, a))
  {
  }

  lemma EndKeeps(s: State, t: Tid, g: Aux)
    requires InvWith(s, g) && Enabled(s, Destroy(t)) && s.threads[t].mode == InterruptMode
    ensures InvWith(Apply(s, Destroy(t)), g.(i := None))
  {
    WhoRuns(s, g, t);
    assert g.i == Some(t);
    assert s.threads[t].nest == [];
    var s' := Apply(s, Destroy(t));
    assert ThreadAt(s', g.n) == ThreadAt(s, g.n);
  }

  lemma CallKeeps(s: State, a: Action, g: Aux)
    requires InvWith(s, g) && Enabled(s, a) && (a.CallSys? || a.CallInt?)
    ensures InvWith(Apply(s, a), g)
  {
    var s' := Apply(s, a);
    assert ThreadAt(s', g.n) == ThreadAt(s, g.n) && ThreadAt(s', g.i) == ThreadAt(s, g.i);
  }

  lemma LeaveKeeps(s: State, t: Tid, g: Aux)
    requires InvWith(s, g) && Enabled(s, Leave(t))
    ensures InvWith(Apply(s, Leave(t)), g)
  {
  }

  lemma Keeps(s: State, a: Action, g: Aux) returns (g': Aux)
    requires InvWith(s, g) && Enabled(s, a)
    ensures InvWith(Apply(s, a), g')
  {
    g' := g;
    if a.CallSys? || a.CallInt? {
      CallKeeps(s, a, g);
    } else if a.Leave? {
      LeaveKeeps(s, a.t, g);
    } else if a.Destroy? && s.threads[a.t].mode == InterruptMode {
      EndKeeps(s, a.t, g);
      g' := g.(i := None);
    } else {
      g' := LocalKeepsInfo(s, a, g);
      LocalKeepsSurvivor(s, a);
    }
  }

  lemma {:induction false} RunKeeps(first: State, actions: seq<Action>, last: State, g: Aux) returns (g': Aux)
    requires InvWith(first, g) && Run(first, actions, last)
    ensures InvWith(last, g')
    decreases |actions|
  {
    if actions == [] {
      g' := g;
    } else {
      var h := Keeps(first, actions[0], g);
      g' := RunKeeps(Apply(first, actions[0]), actions[1..], last, h);
    }
  }

  lemma ReachableInv(s: State) returns (g: Aux)
    requires Reachable(s)
    ensures InvWith(s, g)
  {
    var first, actions :| Init(first) && Run(first, actions, s);
    g := RunKeeps(first, actions, s, Aux(None, None));
  }
}
