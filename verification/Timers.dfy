/**
 * The Linux timers of lib/lk/Timer.C as a step machine.
 *
 * A section under a TimerAnchor lock is one step; handleEvent is a step for each of
 * its compare-and-stores.  Each VP has at most one handleEvent in progress (it runs
 * disabled, on the VP's own dispatcher, so no thread of that VP runs meanwhile) and at
 * most one runTimer (a softirq handler); any number of threads are in del_timer,
 * del_timer_sync and __mod_timer.
 */
module Timers {
  import opened Prelude

  type Vp = nat
  type Tid = nat
  type Timer = nat
  type Base = nat

  // ----------------------------------------------------------------- state

  datatype TimerState = Waiting | Discarded | Fired | Reset

  /** A tvec_t_base_s: one arming of a timer. */
  datatype BaseRec = BaseRec(state: TimerState, timer: Option<Timer>, vp: Vp)

  /** A timer_list; `anchor` is entry.next and `owner` the thread holding its lock. */
  datatype TimerRec = TimerRec(base: Option<Base>, anchor: Option<Vp>, owner: Option<Tid>)

  /** Where the VP's handleEvent is. */
  datatype HandlerAt =
    | Quiet
    | Swing(b: Base)                        // CompareAndStore of state, Waiting to Fired
    | Read(b: Base)                         // read the head of `expired` into nextFree
    | Push(b: Base, seen: Option<Base>)     // CompareAndStore of the head
    | Wake                                  // the list was empty: schedule Event

  /** Where the VP's runTimer is. */
  datatype RunnerAt =
    | Off
    | Swap              // SwapVolatile of `expired` with LIST_END
    | Reverse           // turn the batch round
    | Loop              // take the next base of the batch
    | Calling(b: Base)  // timer->base cleared, lock dropped: call the function
    | Reap(b: Base)     // delete it
    | CleanTest         // cleanUp: is `purge` empty?
    | CleanTake         // take the whole purge list
    | Clean             // reset and delete its members

  /**
   * A VP: its queue of scheduled events, its TimerAnchor and its two activities.
   * `fired`, `taken` and `ran` are histories: bases in the order in which the state
   * became Fired, left the batch, and had their function called.
   */
  datatype VpRec = VpRec(
    scheduled: set<Base>,
    expired: seq<Base>,
    purge: seq<Base>,
    handler: HandlerAt,
    runner: RunnerAt,
    swapped: seq<Base>,
    batch: seq<Base>,
    cleaning: seq<Base>,
    events: nat,
    softirq: bool,
    fired: seq<Base>,
    taken: seq<Base>,
    ran: seq<Base>)

  datatype CallerAt = DelLook | DelLock | DelAgain | ModLock | Returned

  /** A del_timer(_sync) or __mod_timer call: `vp` is the anchor a deleter read, or the VP a modifier runs on. */
  datatype Caller = Caller(at: CallerAt, timer: Timer, vp: Vp, sync: bool, oldAnchor: Option<Vp>, result: bool)

  /**
   * `discarded` and `frees` are histories, `purged` is the VP on whose purge or cleaning list a
   * base is; no step depends on them. `fault` is set by a call through a null timer->base.
   */
  datatype State = State(
    bases: map<Base, BaseRec>,
    timers: map<Timer, TimerRec>,
    vps: seq<VpRec>,
    callers: map<Tid, Caller>,
    discarded: set<Base>,
    frees: multiset<Base>,
    purged: map<Base, Vp>,
    fault: bool)

  // ----------------------------------------------------------------- handleEvent

  function Head(list: seq<Base>): Option<Base> {
    if list == [] then None else Some(list[0])
  }

  function HandlerNext(r: VpRec, waiting: bool): VpRec {
    match r.handler
    case Swing(b) => if waiting then r.(handler := Read(b), fired := r.fired + [b]) else r.(handler := Quiet)
    case Read(b) => r.(handler := Push(b, Head(r.expired)))
    case Push(b, seen) =>
      if Head(r.expired) != seen then r.(handler := Read(b))
      else r.(expired := [b] + r.expired, handler := if seen == None then Wake else Quiet)
    case Wake => r.(events := r.events + 1, handler := Quiet)
    case Quiet => r
  }

  predicate IsWaiting(s: State, r: VpRec) {
    r.handler.Swing? && r.handler.b in s.bases && s.bases[r.handler.b].state == Waiting
  }

  function AfterHandler(s: State, v: Vp): State
    requires v < |s.vps|
  {
    var r := s.vps[v];
    s.(vps := s.vps[v := HandlerNext(r, IsWaiting(s, r))],
       bases := if IsWaiting(s, r) then s.bases[r.handler.b := s.bases[r.handler.b].(state := Fired)] else s.bases)
  }

  // ----------------------------------------------------------------- runTimer and cleanUp

  /** The next base of the batch is to have its function called. */
  predicate Calls(s: State, r: VpRec) {
    && r.runner == Loop && r.batch != [] && r.batch[0] in s.bases
    && s.bases[r.batch[0]].state == Fired && s.bases[r.batch[0]].timer.Some?
  }

  function RunnerNext(r: VpRec, calls: bool): VpRec {
    match r.runner
    case Off => r
    case Swap => r.(swapped := r.expired, expired := [], runner := Reverse)
    case Reverse => r.(batch := Reversed(r.swapped), swapped := [], runner := Loop)
    case Loop =>
      if r.batch == [] then r.(runner := CleanTest)
      else r.(batch := r.batch[1..], taken := r.taken + [r.batch[0]],
              runner := if calls then Calling(r.batch[0]) else Loop)
    case Calling(b) => r.(ran := r.ran + [b], runner := Reap(b))
    case Reap(b) => r.(runner := Loop)
    case CleanTest => r.(runner := if r.purge == [] then Off else CleanTake)
    case CleanTake => r.(cleaning := r.purge, purge := [], runner := Clean)
    case Clean => r.(runner := Off)
  }

  /** The base the step deletes. */
  function Deletes(r: VpRec, calls: bool): Option<Base> {
    match r.runner
    case Loop => if r.batch == [] || calls then None else Some(r.batch[0])
    case Reap(b) => Some(b)
    case _ => None
  }

  function Freed(s: State, b: Option<Base>): multiset<Base> {
    if b == None then s.frees else s.frees + multiset{b.value}
  }

  /** cleanUp has a base to delete. */
  predicate Cleans(r: VpRec) {
    r.runner == Clean && r.cleaning != []
  }

  /**
   * cleanUp resets a base, which takes it off the queue it is on, stores Reset in its state and
   * deletes it. The queue is that of the VP it was registered on, whichever VP cleans up.
   */
  function AfterClean(s: State, v: Vp): State
    requires v < |s.vps| && Cleans(s.vps[v])
  {
    var r, x := s.vps[v], s.vps[v].cleaning[0];
    var vps := s.vps[v := r.(cleaning := r.cleaning[1..])];
    if x !in s.bases then s.(vps := vps, frees := s.frees + multiset{x}, purged := s.purged - {x}) else
    s.(vps := Unscheduled(vps, s.bases[x].vp, x),
       bases := s.bases[x := s.bases[x].(state := Reset)],
       frees := s.frees + multiset{x},
       purged := s.purged - {x})
  }

  function Unscheduled(vps: seq<VpRec>, h: Vp, x: Base): seq<VpRec> {
    if h < |vps| then vps[h := vps[h].(scheduled := vps[h].scheduled - {x})] else vps
  }

  function AfterRunner(s: State, v: Vp): State
    requires v < |s.vps|
  {
    var r := s.vps[v];
    var calls := Calls(s, r);
    if Cleans(r) then AfterClean(s, v) else
    s.(vps := s.vps[v := RunnerNext(r, calls)],
       frees := Freed(s, Deletes(r, calls)),
       timers := if calls then ClearBase(s.timers, s.bases[r.batch[0]].timer.value) else s.timers)
  }

  function ClearBase(timers: map<Timer, TimerRec>, tm: Timer): map<Timer, TimerRec> {
    if tm in timers then timers[tm := timers[tm].(base := None)] else timers
  }

  // ----------------------------------------------------------------- del_timer and __mod_timer

  /** The base the timer is armed with. */
  function BaseOf(s: State, tm: Timer): Option<Base> {
    if tm in s.timers then s.timers[tm].base else None
  }

  /** locked_discard on anchor `a`, then timer->base = NULL. */
  function Discard(s: State, tm: Timer, a: Vp): State
    requires a < |s.vps| && tm in s.timers
  {
    var b := s.timers[tm].base;
    if b == None || b.value !in s.bases then s
    else
      var r := s.bases[b.value];
      s.(bases := s.bases[b.value := r.(state := Discarded, timer := None)],
         vps := if r.state == Waiting then s.vps[a := s.vps[a].(purge := [b.value] + s.vps[a].purge)] else s.vps,
         purged := if r.state == Waiting then s.purged[b.value := a] else s.purged,
         timers := ClearBase(s.timers, tm),
         discarded := s.discarded + {b.value})
  }

  function AfterDeleter(s: State, t: Tid): State
    requires t in s.callers && s.callers[t].vp < |s.vps| && s.callers[t].timer in s.timers
  {
    var k := s.callers[t];
    var armed := BaseOf(s, k.timer).Some?;
    match k.at
    case DelLook => s.(callers := s.callers[t := k.(at := if armed then DelLock else DelAgain)])
    case DelLock =>
      Discard(s, k.timer, k.vp).(callers := s.callers[t := k.(at := DelAgain, result := k.result || armed)])
    case DelAgain => s.(callers := s.callers[t := k.(at := if armed && k.sync then DelLook else Returned)])
    case _ => s
  }

  /** Allocate `b` for the timer on VP `v` and schedule it. */
  function Arm(s: State, tm: Timer, v: Vp, b: Base): State
    requires v < |s.vps|
  {
    s.(bases := s.bases[b := BaseRec(Waiting, Some(tm), v)],
       timers := s.timers[tm := TimerRec(Some(b), Some(v), None)],
       vps := s.vps[v := s.vps[v].(scheduled := s.vps[v].scheduled + {b})])
  }

  /** The locked section of __mod_timer and its release of the timer's own lock. */
  function AfterModifier(s: State, t: Tid, b: Base): State
    requires t in s.callers && s.callers[t].timer in s.timers && s.callers[t].vp < |s.vps|
    requires s.callers[t].oldAnchor.Some? ==> s.callers[t].oldAnchor.value < |s.vps|
  {
    var k := s.callers[t];
    if k.oldAnchor != s.timers[k.timer].anchor then
      s.(callers := s.callers[t := k.(oldAnchor := s.timers[k.timer].anchor)])
    else if k.oldAnchor.Some? && BaseOf(s, k.timer).None? then s.(fault := true)
    else
      Arm(if k.oldAnchor.Some? then Discard(s, k.timer, k.oldAnchor.value) else s, k.timer, k.vp, b)
        .(callers := s.callers[t := k.(at := Returned, result := k.oldAnchor.Some?)])
  }

  // ----------------------------------------------------------------- runs

  datatype Action =
    | Expire(v: Vp, b: Base)              // the dispatcher takes `b` off its queue and calls handleEvent
    | StepHandler(v: Vp)
    | RunEvent(v: Vp)                     // the Event thread raises the softirq
    | StartRun(v: Vp)                     // the softirq calls RunTimer
    | StepRunner(v: Vp)
    | DelTimer(t: Tid, tm: Timer, sync: bool)
    | StepDeleter(t: Tid)
    | ModTimer(t: Tid, tm: Timer, v: Vp)  // takes the timer's own lock
    | StepModifier(t: Tid, b: Base)       // `b` is the newly allocated base

  predicate Enabled(s: State, a: Action) {
    !s.fault &&
    match a
    case Expire(v, b) => v < |s.vps| && s.vps[v].handler == Quiet && b in s.vps[v].scheduled
    case StepHandler(v) => v < |s.vps| && s.vps[v].handler != Quiet
    case RunEvent(v) => v < |s.vps| && s.vps[v].events > 0
    case StartRun(v) => v < |s.vps| && s.vps[v].softirq && s.vps[v].runner == Off && s.vps[v].handler == Quiet
    case StepRunner(v) => v < |s.vps| && s.vps[v].runner != Off && s.vps[v].handler == Quiet
    case DelTimer(t, tm, _) => t !in s.callers && tm in s.timers
    case StepDeleter(t) =>
      && t in s.callers && s.callers[t].timer in s.timers && s.callers[t].vp < |s.vps|
      && (s.callers[t].at == DelLook || s.callers[t].at == DelLock || s.callers[t].at == DelAgain)
    case ModTimer(t, tm, v) => t !in s.callers && tm in s.timers && s.timers[tm].owner.None? && v < |s.vps|
    case StepModifier(t, b) =>
      && t in s.callers && s.callers[t].at == ModLock && s.callers[t].timer in s.timers && s.callers[t].vp < |s.vps|
      && (s.callers[t].oldAnchor.Some? ==> s.callers[t].oldAnchor.value < |s.vps|)
      && b !in s.bases
  }

  function Apply(s: State, a: Action): State
    requires Enabled(s, a)
  {
    match a
    case Expire(v, b) =>
      s.(vps := s.vps[v := s.vps[v].(scheduled := s.vps[v].scheduled - {b}, handler := Swing(b))])
    case StepHandler(v) => AfterHandler(s, v)
    case RunEvent(v) => s.(vps := s.vps[v := s.vps[v].(events := s.vps[v].events - 1, softirq := true)])
    case StartRun(v) => s.(vps := s.vps[v := s.vps[v].(softirq := false, runner := Swap)])
    case StepRunner(v) => AfterRunner(s, v)
    case DelTimer(t, tm, sync) =>
      var at := if s.timers[tm].anchor.None? then Returned else DelLook;
      var vp := if s.timers[tm].anchor.None? then 0 else s.timers[tm].anchor.value;
      s.(callers := s.callers[t := Caller(at, tm, vp, sync, None, false)])
    case StepDeleter(t) => AfterDeleter(s, t)
    case ModTimer(t, tm, v) =>
      var anchor := if s.timers[tm].base.None? then None else s.timers[tm].anchor;
      s.(timers := s.timers[tm := s.timers[tm].(anchor := anchor, owner := Some(t))],
         callers := s.callers[t := Caller(ModLock, tm, v, false, anchor, false)])
    case StepModifier(t, b) => AfterModifier(s, t, b)
  }

  ghost predicate Init(s: State) {
    && s.bases == map[] && s.callers == map[] && s.discarded == {} && s.frees == multiset{}
    && s.purged == map[] && !s.fault
    && (forall tm :: tm in s.timers ==> s.timers[tm] == TimerRec(None, None, None))
    && (forall v :: 0 <= v < |s.vps| ==> s.vps[v] == VpRec({}, [], [], Quiet, Off, [], [], [], 0, false, [], [], []))
  }

  /**
   * del_timer reads the anchor, then takes its lock. A deleter's locked section is
   * settled if the timer, when still armed, is still on that anchor.
   */
  predicate Settled(s: State, a: Action) {
    a.StepDeleter? && a.t in s.callers && s.callers[a.t].at == DelLock && BaseOf(s, s.callers[a.t].timer).Some? ==>
      s.timers[s.callers[a.t].timer].anchor == Some(s.callers[a.t].vp)
  }

  ghost predicate Run(first: State, actions: seq<Action>, last: State)
    decreases |actions|
  {
    if actions == [] then first == last
    else Enabled(first, actions[0]) && Run(Apply(first, actions[0]), actions[1..], last)
  }

  ghost predicate AllSettled(first: State, actions: seq<Action>)
    decreases |actions|
  {
    actions != [] && Enabled(first, actions[0]) ==>
      Settled(first, actions[0]) && AllSettled(Apply(first, actions[0]), actions[1..])
  }

  ghost predicate Reachable(s: State) {
    exists first, actions :: Init(first) && Run(first, actions, s)
  }

  /** Reached without an unsettled deleter. */
  ghost predicate SettledReachable(s: State) {
    exists first, actions :: Init(first) && Run(first, actions, s) && AllSettled(first, actions)
  }
}
