/** What every interleaving of the timer code keeps. */
module TimerProof {
  import opened Prelude
  import opened Timers

  // ------------------------------------------------- one base

  /** What the state says about one base. */
  datatype View = View(
    state: TimerState,
    scheduled: bool,    // in the dispatcher's queue
    swinging: bool,     // handleEvent has been called but has not yet tested its state
    fired: bool,        // its state has been Fired
    taken: bool,        // it has left its batch
    current: bool,      // its function is being called, or it is about to be deleted after that
    purging: bool,      // on some purge or cleaning list
    linked: bool,       // it is its timer's base
    discarded: bool,
    frees: nat)         // how often it has been deleted

  function Current(r: VpRec): Option<Base> {
    match r.runner
    case Calling(b) => Some(b)
    case Reap(b) => Some(b)
    case _ => None
  }

  ghost function ViewIn(rec: BaseRec, b: Base, r: VpRec,
                        purging: bool, linked: bool, discarded: bool, frees: nat): View
  {
    View(rec.state, b in r.scheduled, r.handler == Swing(b), b in r.fired, b in r.taken, Current(r) == Some(b),
         purging, linked, discarded, frees)
  }

  ghost predicate Linked(s: State, b: Base) {
    b in s.bases && s.bases[b].timer.Some? && BaseOf(s, s.bases[b].timer.value) == Some(b)
  }

  /** Occurrences on the VP's purge and cleaning lists. */
  ghost function Listed(r: VpRec, b: Base): nat {
    multiset(r.purge)[b] + multiset(r.cleaning)[b]
  }

  ghost function ViewOf(s: State, b: Base): View
    requires b in s.bases && s.bases[b].vp < |s.vps|
  {
    ViewIn(s.bases[b], b, s.vps[s.bases[b].vp], b in s.purged, Linked(s, b), b in s.discarded, s.frees[b])
  }

  /**
   * The life of a base: it is deleted at most once, and never while it is queued or on a list, or
   * a timer has it.
   */
  predicate Ok(w: View) {
    && (w.state == Discarded || w.state == Reset <==> w.discarded)
    && (w.taken ==> w.fired)
    && (w.current ==> w.state == Fired && w.taken)
    && !(w.scheduled && w.swinging)
    && match w.state
       case Waiting => !w.fired && (w.scheduled || w.swinging) && !w.purging && w.linked && w.frees == 0
       case Fired =>
         && w.fired && !w.scheduled && !w.swinging && !w.purging && w.linked == !w.taken
         && w.frees == (if w.taken && !w.current then 1 else 0)
       case Discarded =>
         && !w.linked
         && (w.fired ==> !w.scheduled && !w.swinging && !w.purging && w.frees == (if w.taken then 1 else 0))
         && (!w.fired ==> w.purging && w.frees == 0)
       case Reset => !w.linked && !w.fired && !w.purging && !w.scheduled && w.frees == 1
  }

  /** A VP's queue, handler and runner only ever deal with its own bases. */
  ghost predicate Mentions(r: VpRec, b: Base) {
    b in r.scheduled || r.handler == Swing(b) || b in r.fired || b in r.taken || Current(r) == Some(b)
  }

  ghost predicate Home(vps: seq<VpRec>, bases: map<Base, BaseRec>) {
    && (forall v, b :: 0 <= v < |vps| && Mentions(vps[v], b) ==> b in bases && bases[b].vp == v)
    && (forall b :: b in bases ==> bases[b].vp < |vps|)
  }

  ghost predicate InvHome(s: State) {
    Home(s.vps, s.bases)
  }

  ghost predicate InvKnown(s: State) {
    forall b :: b in s.discarded || b in s.frees || b in s.purged ==> b in s.bases
  }

  /** A base is on one purge or cleaning list at most, once, and `purged` says on which VP. */
  ghost predicate InvPlace(s: State) {
    Placed(s.vps, s.purged)
  }

  ghost predicate Placed(vps: seq<VpRec>, purged: map<Base, Vp>) {
    forall v, b :: 0 <= v < |vps| ==> Listed(vps[v], b) == if b in purged && purged[b] == v then 1 else 0
  }

  ghost predicate InvBase(s: State) {
    forall b :: b in s.bases && s.bases[b].vp < |s.vps| ==> Ok(ViewOf(s, b))
  }

  /** An armed timer and its base name each other, and the timer's anchor is the base's VP. */
  ghost predicate InvLink(s: State) {
    && (forall tm :: tm in s.timers && s.timers[tm].base.Some? ==>
          && s.timers[tm].base.value in s.bases
          && s.bases[s.timers[tm].base.value].timer == Some(tm)
          && s.timers[tm].anchor == Some(s.bases[s.timers[tm].base.value].vp))
    && (forall tm :: tm in s.timers && s.timers[tm].anchor.Some? ==> s.timers[tm].anchor.value < |s.vps|)
  }

  // ------------------------------------------------- one VP

  /** Bases whose state became Fired and that runTimer has not yet taken, oldest first. */
  function Pipeline(r: VpRec): seq<Base> {
    r.batch + Reversed(r.swapped) + Reversed(r.expired) + InHandler(r)
  }

  function InHandler(r: VpRec): seq<Base> {
    match r.handler
    case Read(b) => [b]
    case Push(b, _) => [b]
    case _ => []
  }

  /** runTimer takes bases in the order in which they fired, across all its batches. */
  ghost predicate InvOrder(r: VpRec) {
    r.fired == r.taken + Pipeline(r) && Distinct(r.fired)
  }

  /** Which of the runner's lists can be non-empty, by where it is. */
  predicate InvPhase(r: VpRec) {
    && (r.swapped != [] ==> r.runner == Reverse)
    && (r.batch != [] ==> r.runner == Loop || Current(r).Some?)
    && (r.cleaning != [] ==> r.runner == Clean)
    && (r.handler.Push? ==> r.handler.seen == Head(r.expired))
    && (Current(r).Some? ==> r.taken != [] && r.taken[|r.taken| - 1] == Current(r).value)
  }

  /** A non-empty expired list has an Event pending, or about to be scheduled, or being served. */
  predicate Watched(r: VpRec) {
    r.expired != [] ==> r.handler == Wake || r.events > 0 || r.softirq || r.runner == Swap
  }

  /** The members of a sequence outside a set, in order. */
  function Outside(list: seq<Base>, x: set<Base>): seq<Base> {
    if list == [] then []
    else
      var n := |list| - 1;
      Outside(list[..n], x) + if list[n] in x then [] else [list[n]]
  }

  /** The functions called are those of the taken bases that were not discarded, in order. */
  predicate CallsInOrder(r: VpRec, discarded: set<Base>) {
    Outside(r.taken, discarded) == r.ran + if r.runner.Calling? then [r.runner.b] else []
  }

  ghost predicate InvVp(s: State) {
    forall v :: 0 <= v < |s.vps| ==> VpOk(s.vps[v], s.discarded)
  }

  ghost predicate VpOk(r: VpRec, discarded: set<Base>) {
    InvOrder(r) && InvPhase(r) && Watched(r) && CallsInOrder(r, discarded)
  }

  // ------------------------------------------------- callers

  ghost predicate InvCaller(s: State) {
    && (forall t :: t in s.callers && s.callers[t].at == ModLock ==>
          && s.callers[t].timer in s.timers
          && var tm := s.timers[s.callers[t].timer];
             tm.owner == Some(t) && tm.anchor == s.callers[t].oldAnchor && (tm.anchor.None? ==> tm.base.None?))
    && (forall tm :: tm in s.timers && s.timers[tm].owner.Some? ==>
          && s.timers[tm].owner.value in s.callers
          && s.callers[s.timers[tm].owner.value].at == ModLock && s.callers[s.timers[tm].owner.value].timer == tm)
  }

  /** The parts that depend on bases and VPs. */
  ghost predicate InvBases(s: State) {
    InvHome(s) && InvKnown(s) && InvPlace(s) && InvBase(s) && InvVp(s)
  }

  ghost predicate Inv(s: State) {
    InvBases(s) && InvLink(s) && InvCaller(s)
  }

  // ------------------------------------------------- lists

  lemma {:induction false} OutsideGrow(list: seq<Base>, x: set<Base>, b: Base)
    requires b !in list
    ensures Outside(list, x + {b}) == Outside(list, x)
  {
    if list != [] {
      OutsideGrow(list[..|list| - 1], x, b);
    }
  }

  // ------------------------------------------------- frames

  /** The two records show the same view of every base. */
  predicate SameFor(r: VpRec, r': VpRec) {
    && r'.scheduled == r.scheduled && r'.handler == r.handler
    && r'.fired == r.fired && r'.taken == r.taken && r'.runner == r.runner
  }

  /** A view depends on nothing else. */
  lemma SameView(s: State, s': State, b: Base)
    requires b in s.bases && b in s'.bases && s.bases[b] == s'.bases[b]
    requires s.bases[b].vp < |s.vps| && |s.vps| == |s'.vps| && SameFor(s.vps[s.bases[b].vp], s'.vps[s.bases[b].vp])
    requires b in s'.purged <==> b in s.purged
    requires Linked(s, b) == Linked(s', b) && (b in s.discarded) == (b in s'.discarded) && s.frees[b] == s'.frees[b]
    ensures ViewOf(s', b) == ViewOf(s, b)
  {
  }

  /** A VP whose lists stay the same, or move from one to the other. */
  lemma PlaceKept(vps: seq<VpRec>, purged: map<Base, Vp>, v: Vp, r: VpRec)
    requires Placed(vps, purged) && v < |vps| && forall b :: Listed(r, b) == Listed(vps[v], b)
    ensures Placed(vps[v := r], purged)
  {
  }

  /** A VP whose record mentions nothing new keeps every base at home. */
  lemma HomeKept(vps: seq<VpRec>, bases: map<Base, BaseRec>, v: Vp, r: VpRec)
    requires Home(vps, bases) && v < |vps| && (forall b :: Mentions(r, b) ==> Mentions(vps[v], b))
    ensures Home(vps[v := r], bases)
  {
  }

  // ------------------------------------------------- handleEvent

  lemma PushKeepsPipeline(r: VpRec, b: Base)
    requires r.handler.Push? && r.handler.b == b
    ensures Pipeline(r.(expired := [b] + r.expired, handler := Quiet)) == Pipeline(r)
  {
  }

  lemma HandlerKeepsPhase(r: VpRec, waiting: bool)
    requires InvPhase(r) && Watched(r)
    ensures InvPhase(HandlerNext(r, waiting)) && Watched(HandlerNext(r, waiting))
  {
    var r' := HandlerNext(r, waiting);
    assert r'.swapped == r.swapped && r'.batch == r.batch && r'.cleaning == r.cleaning && r'.runner == r.runner;
    assert r'.taken == r.taken;
  }

  lemma HandlerPipeline(r: VpRec, waiting: bool)
    ensures Pipeline(HandlerNext(r, waiting)) ==
              Pipeline(r) + if r.handler.Swing? && waiting then [r.handler.b] else []
  {
    if r.handler.Push? {
      PushKeepsPipeline(r, r.handler.b);
    }
    var front := r.batch + Reversed(r.swapped) + Reversed(r.expired);
    assert front + [] == front;
    assert Pipeline(r) + [] == Pipeline(r);
  }

  lemma HandlerKeepsOrder(r: VpRec, waiting: bool)
    requires InvOrder(r)
    requires r.handler.Swing? && waiting ==> r.handler.b !in r.fired
    ensures InvOrder(HandlerNext(r, waiting))
  {
    var r' := HandlerNext(r, waiting);
    HandlerPipeline(r, waiting);
    var added := if r.handler.Swing? && waiting then [r.handler.b] else [];
    assert r'.fired == r.fired + added && r'.taken == r.taken;
    Regroup(r.taken, Pipeline(r), added);
  }

  lemma Regroup(a: seq<Base>, b: seq<Base>, c: seq<Base>)
    ensures a + (b + c) == (a + b) + c
  {
  }

  lemma HandlerKeepsRecord(r: VpRec, waiting: bool, discarded: set<Base>)
    requires VpOk(r, discarded) && (r.handler.Swing? && waiting ==> r.handler.b !in r.fired)
    ensures VpOk(HandlerNext(r, waiting), discarded)
  {
    HandlerKeepsOrder(r, waiting);
    HandlerKeepsPhase(r, waiting);
  }

  lemma HandlerView(rec: BaseRec, b: Base, r: VpRec, waiting: bool,
                    purging: bool, linked: bool, discarded: bool, frees: nat)
    requires Ok(ViewIn(rec, b, r, purging, linked, discarded, frees))
    requires r.handler == Swing(b) ==> waiting == (rec.state == Waiting)
    ensures Ok(ViewIn(if r.handler == Swing(b) && waiting then rec.(state := Fired) else rec, b,
                      HandlerNext(r, waiting), purging, linked, discarded, frees))
  {
  }

  lemma HandlerKeepsBase(s: State, v: Vp)
    requires InvHome(s) && InvBase(s) && v < |s.vps|
    ensures InvBase(AfterHandler(s, v))
  {
    var s', r := AfterHandler(s, v), s.vps[v];
    var waiting := IsWaiting(s, r);
    assert waiting ==> Mentions(r, r.handler.b);
    forall b | b in s'.bases && s'.bases[b].vp < |s.vps|
      ensures Ok(ViewOf(s', b))
    {
      assert Linked(s', b) == Linked(s, b);
      assert Ok(ViewOf(s, b));
      if s.bases[b].vp == v {
        HandlerView(s.bases[b], b, r, waiting, b in s.purged, Linked(s, b), b in s.discarded, s.frees[b]);
      } else {
        SameView(s, s', b);
      }
    }
  }

  lemma HandlerKeepsHome(s: State, v: Vp)
    requires InvHome(s) && v < |s.vps|
    ensures InvHome(AfterHandler(s, v))
  {
    var r := s.vps[v];
    HomeKept(s.vps, s.bases, v, HandlerNext(r, IsWaiting(s, r)));
  }

  lemma HandlerKeepsLink(s: State, v: Vp)
    requires InvKnown(s) && InvLink(s) && v < |s.vps|
    ensures InvKnown(AfterHandler(s, v)) && InvLink(AfterHandler(s, v))
  {
  }

  lemma HandlerKeepsPlace(s: State, v: Vp)
    requires InvPlace(s) && v < |s.vps|
    ensures InvPlace(AfterHandler(s, v))
  {
    PlaceKept(s.vps, s.purged, v, HandlerNext(s.vps[v], IsWaiting(s, s.vps[v])));
  }

  lemma HandlerKeepsVp(s: State, v: Vp)
    requires InvHome(s) && InvBase(s) && InvVp(s) && v < |s.vps|
    ensures InvVp(AfterHandler(s, v))
  {
    var r := s.vps[v];
    if IsWaiting(s, r) {
      assert Mentions(r, r.handler.b);
      assert Ok(ViewOf(s, r.handler.b));
    }
    assert VpOk(r, s.discarded);
    HandlerKeepsRecord(r, IsWaiting(s, r), s.discarded);
  }

  lemma HandlerKeeps(s: State, v: Vp)
    requires Inv(s) && v < |s.vps|
    ensures Inv(AfterHandler(s, v))
  {
    HandlerKeepsHome(s, v);
    HandlerKeepsLink(s, v);
    HandlerKeepsPlace(s, v);
    HandlerKeepsBase(s, v);
    HandlerKeepsVp(s, v);
  }

  // ------------------------------------------------- runTimer

  lemma BatchHead(r: VpRec)
    requires InvOrder(r) && r.batch != []
    ensures r.batch[0] in r.fired && r.batch[0] !in r.taken
  {
    var n := |r.taken|;
    assert Pipeline(r)[0] == r.batch[0];
    assert r.fired[n] == r.batch[0];
    assert forall i :: 0 <= i < n ==> r.fired[i] == r.taken[i];
  }

  lemma RunnerPipeline(r: VpRec, calls: bool)
    requires InvPhase(r) && r.handler == Quiet
    ensures var r' := RunnerNext(r, calls);
      if r.runner == Loop && r.batch != [] then Pipeline(r) == [r.batch[0]] + Pipeline(r')
      else Pipeline(r') == Pipeline(r)
  {
  }

  lemma RunnerKeepsOrder(r: VpRec, calls: bool)
    requires InvOrder(r) && InvPhase(r) && r.handler == Quiet
    ensures InvOrder(RunnerNext(r, calls))
  {
    var r' := RunnerNext(r, calls);
    RunnerPipeline(r, calls);
    if r.runner == Loop && r.batch != [] {
      assert r.taken + ([r.batch[0]] + Pipeline(r')) == (r.taken + [r.batch[0]]) + Pipeline(r');
    }
  }

  lemma RunnerKeepsPhase(r: VpRec, calls: bool)
    requires InvPhase(r) && Watched(r) && r.handler == Quiet && !Cleans(r)
    ensures InvPhase(RunnerNext(r, calls)) && Watched(RunnerNext(r, calls))
  {
  }

  lemma RunnerKeepsCalls(r: VpRec, calls: bool, discarded: set<Base>)
    requires CallsInOrder(r, discarded)
    requires r.runner == Loop && r.batch != [] ==> calls == (r.batch[0] !in discarded)
    ensures CallsInOrder(RunnerNext(r, calls), discarded)
  {
  }

  lemma RunnerView(rec: BaseRec, b: Base, r: VpRec, calls: bool,
                   purging: bool, linked: bool, discarded: bool, frees: nat)
    requires Ok(ViewIn(rec, b, r, purging, linked, discarded, frees)) && InvPhase(r) && r.handler == Quiet
    requires r.runner == Loop && r.batch != [] && r.batch[0] == b ==>
               b in r.fired && b !in r.taken && calls == (rec.state == Fired)
    requires calls ==> r.runner == Loop && r.batch != []
    ensures Ok(ViewIn(rec, b, RunnerNext(r, calls), purging, linked && !(calls && r.batch[0] == b), discarded,
                      frees + if Deletes(r, calls) == Some(b) then 1 else 0))
  {
  }

  lemma RunnerCalls(s: State, v: Vp)
    requires InvHome(s) && InvBase(s) && v < |s.vps| && InvOrder(s.vps[v])
    requires s.vps[v].runner == Loop && s.vps[v].batch != []
    ensures var b := s.vps[v].batch[0];
      && b in s.bases && s.bases[b].vp == v
      && (Calls(s, s.vps[v]) <==> s.bases[b].state == Fired) && (Calls(s, s.vps[v]) <==> b !in s.discarded)
      && (Calls(s, s.vps[v]) ==> Linked(s, b))
  {
    var r := s.vps[v];
    BatchHead(r);
    assert Mentions(r, r.batch[0]);
    assert Ok(ViewOf(s, r.batch[0]));
  }

  /** Clearing a timer's base breaks one link and no other. */
  lemma ClearLinks(s: State, s': State, tm: Timer, b0: Base, b: Base)
    requires BaseOf(s, tm) == Some(b0) && s'.timers == ClearBase(s.timers, tm)
    requires b in s.bases && b in s'.bases && s.bases[b].timer == s'.bases[b].timer
    requires b == b0 ==> s.bases[b].timer == Some(tm)
    ensures Linked(s', b) == (Linked(s, b) && b != b0)
  {
  }

  lemma RunnerLinked(s: State, v: Vp, b: Base)
    requires v < |s.vps| && b in s.bases && !Cleans(s.vps[v])
    requires Calls(s, s.vps[v]) ==> Linked(s, s.vps[v].batch[0])
    ensures Linked(AfterRunner(s, v), b) == (Linked(s, b) && !(Calls(s, s.vps[v]) && s.vps[v].batch[0] == b))
  {
  }

  lemma FreedCount(s: State, d: Option<Base>, b: Base)
    ensures Freed(s, d)[b] == s.frees[b] + if d == Some(b) then 1 else 0
  {
  }

  lemma RunnerKeepsPlace(s: State, v: Vp)
    requires InvPlace(s) && v < |s.vps| && InvPhase(s.vps[v]) && !Cleans(s.vps[v])
    ensures InvPlace(AfterRunner(s, v))
  {
    PlaceKept(s.vps, s.purged, v, RunnerNext(s.vps[v], Calls(s, s.vps[v])));
  }

  lemma RunnerKeepsOwnView(s: State, v: Vp, b: Base)
    requires v < |s.vps| && b in s.bases && s.bases[b].vp == v && Ok(ViewOf(s, b)) && !Cleans(s.vps[v])
    requires InvOrder(s.vps[v]) && InvPhase(s.vps[v]) && s.vps[v].handler == Quiet
    requires var r := s.vps[v];
             r.runner == Loop && r.batch != [] && r.batch[0] == b ==> Calls(s, r) == (s.bases[b].state == Fired)
    requires Calls(s, s.vps[v]) ==> Linked(s, s.vps[v].batch[0])
    ensures Ok(ViewOf(AfterRunner(s, v), b))
  {
    var r := s.vps[v];
    RunnerLinked(s, v, b);
    FreedCount(s, Deletes(r, Calls(s, r)), b);
    if r.runner == Loop && r.batch != [] {
      BatchHead(r);
    }
    RunnerView(s.bases[b], b, r, Calls(s, r), b in s.purged, Linked(s, b), b in s.discarded, s.frees[b]);
  }

  lemma RunnerMentions(r: VpRec, calls: bool, b: Base)
    requires InvOrder(r) && InvPhase(r)
    ensures Mentions(RunnerNext(r, calls), b) ==> Mentions(r, b)
    ensures Deletes(r, calls) == Some(b) ==> Mentions(r, b)
  {
    if r.runner == Loop && r.batch != [] {
      BatchHead(r);
    }
  }

  lemma RunnerKeepsBase(s: State, v: Vp)
    requires InvHome(s) && InvBase(s) && v < |s.vps| && InvOrder(s.vps[v]) && InvPhase(s.vps[v])
    requires s.vps[v].handler == Quiet && !Cleans(s.vps[v])
    ensures InvBase(AfterRunner(s, v))
  {
    var s', r := AfterRunner(s, v), s.vps[v];
    if r.runner == Loop && r.batch != [] {
      RunnerCalls(s, v);
    }
    forall b | b in s'.bases && s'.bases[b].vp < |s.vps|
      ensures Ok(ViewOf(s', b))
    {
      assert Ok(ViewOf(s, b));
      if s.bases[b].vp == v {
        RunnerKeepsOwnView(s, v, b);
      } else {
        RunnerLinked(s, v, b);
        RunnerMentions(r, Calls(s, r), b);
        SameView(s, s', b);
      }
    }
  }

  lemma RunnerKeepsHome(s: State, v: Vp)
    requires InvHome(s) && v < |s.vps| && InvOrder(s.vps[v]) && InvPhase(s.vps[v]) && !Cleans(s.vps[v])
    ensures InvHome(AfterRunner(s, v))
  {
    var r := s.vps[v];
    var calls := Calls(s, r);
    forall b: Base
      ensures Mentions(RunnerNext(r, calls), b) ==> Mentions(r, b)
    {
      RunnerMentions(r, calls, b);
    }
    HomeKept(s.vps, s.bases, v, RunnerNext(r, calls));
  }

  lemma RunnerKeepsKnown(s: State, v: Vp)
    requires InvHome(s) && InvKnown(s) && v < |s.vps| && InvOrder(s.vps[v]) && InvPhase(s.vps[v]) && !Cleans(s.vps[v])
    ensures InvKnown(AfterRunner(s, v))
  {
    var d := Deletes(s.vps[v], Calls(s, s.vps[v]));
    if d.Some? {
      RunnerMentions(s.vps[v], Calls(s, s.vps[v]), d.value);
      assert Mentions(s.vps[v], d.value);
    }
  }

  lemma RunnerKeepsRecord(r: VpRec, calls: bool, discarded: set<Base>)
    requires VpOk(r, discarded) && r.handler == Quiet && !Cleans(r)
    requires r.runner == Loop && r.batch != [] ==> calls == (r.batch[0] !in discarded)
    ensures VpOk(RunnerNext(r, calls), discarded)
  {
    RunnerKeepsOrder(r, calls);
    RunnerKeepsPhase(r, calls);
    RunnerKeepsCalls(r, calls, discarded);
  }

  lemma RunnerKeepsLink(s: State, v: Vp)
    requires InvLink(s) && InvCaller(s) && v < |s.vps| && !Cleans(s.vps[v])
    ensures InvLink(AfterRunner(s, v)) && InvCaller(AfterRunner(s, v))
  {
  }

  lemma RunnerKeepsVp(s: State, v: Vp)
    requires InvHome(s) && InvBase(s) && InvVp(s) && v < |s.vps| && s.vps[v].handler == Quiet && !Cleans(s.vps[v])
    ensures InvVp(AfterRunner(s, v))
  {
    var r := s.vps[v];
    assert VpOk(r, s.discarded);
    if r.runner == Loop && r.batch != [] {
      RunnerCalls(s, v);
    }
    RunnerKeepsRecord(r, Calls(s, r), s.discarded);
  }

  // ------------------------------------------------- cleanUp

  lemma CleaningHead(list: seq<Base>, b: Base)
    requires list != []
    ensures multiset(list[1..])[b] == multiset(list)[b] - if b == list[0] then 1 else 0
  {
    assert list == [list[0]] + list[1..];
  }

  lemma CleanIsPlaced(s: State, v: Vp)
    requires InvPlace(s) && InvKnown(s) && v < |s.vps| && Cleans(s.vps[v])
    ensures var x := s.vps[v].cleaning[0]; x in s.purged && s.purged[x] == v && x in s.bases
  {
    var x := s.vps[v].cleaning[0];
    assert multiset(s.vps[v].cleaning)[x] > 0;
    assert Listed(s.vps[v], x) > 0;
  }

  lemma CleanView(w: View)
    requires Ok(w) && w.purging
    ensures Ok(w.(state := Reset, purging := false, frees := w.frees + 1, scheduled := false))
  {
  }

  /** What a deletion by cleanUp leaves of each VP. */
  lemma CleanRecords(s: State, v: Vp, u: Vp)
    requires v < |s.vps| && u < |s.vps| && Cleans(s.vps[v]) && s.vps[v].cleaning[0] in s.bases
    ensures var r, r', x := s.vps[u], AfterClean(s, v).vps[u], s.vps[v].cleaning[0];
      && r' == r.(scheduled := r'.scheduled, cleaning := r'.cleaning)
      && r'.scheduled == (if s.bases[x].vp == u then r.scheduled - {x} else r.scheduled)
      && r'.cleaning == (if u == v then r.cleaning[1..] else r.cleaning)
  {
  }

  lemma CleanBases(s: State, v: Vp)
    requires v < |s.vps| && Cleans(s.vps[v])
    ensures var s' := AfterClean(s, v);
      && s'.bases.Keys == s.bases.Keys && |s'.vps| == |s.vps|
      && forall b :: b in s.bases ==> s'.bases[b].timer == s.bases[b].timer && s'.bases[b].vp == s.bases[b].vp
  {
  }

  lemma CleanKeepsView(s: State, v: Vp, b: Base)
    requires v < |s.vps| && Cleans(s.vps[v]) && s.vps[v].cleaning[0] in s.bases
    requires b in s.bases && s.bases[b].vp < |s.vps| && Ok(ViewOf(s, b))
    requires b == s.vps[v].cleaning[0] ==> b in s.purged
    ensures Ok(ViewOf(AfterClean(s, v), b))
  {
    CleanRecords(s, v, s.bases[b].vp);
    assert Linked(AfterClean(s, v), b) == Linked(s, b);
    if b == s.vps[v].cleaning[0] {
      CleanView(ViewOf(s, b));
    } else {
      assert ViewOf(AfterClean(s, v), b) == ViewOf(s, b);
    }
  }

  lemma CleanKeepsBase(s: State, v: Vp)
    requires InvKnown(s) && InvPlace(s) && InvBase(s) && v < |s.vps| && Cleans(s.vps[v])
    ensures InvBase(AfterClean(s, v))
  {
    CleanIsPlaced(s, v);
    CleanBases(s, v);
    var s' := AfterClean(s, v);
    forall b | b in s'.bases && s'.bases[b].vp < |s'.vps|
      ensures Ok(ViewOf(s', b))
    {
      assert b in s.bases && s.bases[b].vp < |s.vps| && Ok(ViewOf(s, b));
      CleanKeepsView(s, v, b);
    }
  }

  lemma CleanKeepsHome(s: State, v: Vp)
    requires InvHome(s) && v < |s.vps| && Cleans(s.vps[v]) && s.vps[v].cleaning[0] in s.bases
    ensures InvHome(AfterClean(s, v))
  {
    var s' := AfterClean(s, v);
    forall u, b | 0 <= u < |s.vps| && Mentions(s'.vps[u], b)
      ensures b in s.bases && s.bases[b].vp == u
    {
      CleanRecords(s, v, u);
      assert Mentions(s.vps[u], b);
    }
  }

  lemma CleanKeepsPlace(s: State, v: Vp)
    requires InvKnown(s) && InvPlace(s) && v < |s.vps| && Cleans(s.vps[v])
    ensures InvKnown(AfterClean(s, v)) && InvPlace(AfterClean(s, v))
  {
    var s', x := AfterClean(s, v), s.vps[v].cleaning[0];
    CleanIsPlaced(s, v);
    forall u, b | 0 <= u < |s.vps|
      ensures Listed(s'.vps[u], b) == if b in s'.purged && s'.purged[b] == u then 1 else 0
    {
      assert Listed(s.vps[u], b) == if b in s.purged && s.purged[b] == u then 1 else 0;
      CleanKeepsListed(s, v, u, b);
    }
  }

  lemma CleanKeepsListed(s: State, v: Vp, u: Vp, b: Base)
    requires v < |s.vps| && u < |s.vps| && Cleans(s.vps[v])
    requires var x := s.vps[v].cleaning[0]; x in s.bases && x in s.purged && s.purged[x] == v
    requires Listed(s.vps[u], b) == if b in s.purged && s.purged[b] == u then 1 else 0
    ensures var s' := AfterClean(s, v);
      Listed(s'.vps[u], b) == if b in s'.purged && s'.purged[b] == u then 1 else 0
  {
    CleanRecords(s, v, u);
    CleaningHead(s.vps[v].cleaning, b);
  }

  lemma CleanKeepsVp(s: State, v: Vp)
    requires InvVp(s) && v < |s.vps| && Cleans(s.vps[v]) && s.vps[v].cleaning[0] in s.bases
    ensures InvVp(AfterClean(s, v))
  {
    var s' := AfterClean(s, v);
    forall u | 0 <= u < |s.vps|
      ensures VpOk(s'.vps[u], s.discarded)
    {
      assert VpOk(s.vps[u], s.discarded);
      CleanRecords(s, v, u);
      ScheduleKeepsVp(s.vps[u], s'.vps[u], s.discarded);
    }
  }

  lemma ScheduleKeepsVp(r: VpRec, r': VpRec, discarded: set<Base>)
    requires VpOk(r, discarded) && r' == r.(scheduled := r'.scheduled, cleaning := r'.cleaning)
    requires r'.cleaning != [] ==> r.cleaning != []
    ensures VpOk(r', discarded)
  {
    assert Pipeline(r') == Pipeline(r);
  }

  lemma CleanKeepsLink(s: State, v: Vp)
    requires InvLink(s) && InvCaller(s) && v < |s.vps| && Cleans(s.vps[v])
    ensures InvLink(AfterClean(s, v)) && InvCaller(AfterClean(s, v))
  {
    var s' := AfterClean(s, v);
    CleanBases(s, v);
    assert s'.timers == s.timers && s'.callers == s.callers;
  }

  lemma CleanKeeps(s: State, v: Vp)
    requires Inv(s) && v < |s.vps| && Cleans(s.vps[v])
    ensures Inv(AfterClean(s, v))
  {
    CleanKeepsLink(s, v);
    CleanIsPlaced(s, v);
    CleanKeepsHome(s, v);
    CleanKeepsPlace(s, v);
    CleanKeepsBase(s, v);
    CleanKeepsVp(s, v);
  }

  lemma RunnerKeeps(s: State, v: Vp)
    requires Inv(s) && v < |s.vps| && s.vps[v].handler == Quiet
    ensures Inv(AfterRunner(s, v))
  {
    if Cleans(s.vps[v]) {
      CleanKeeps(s, v);
    } else {
      assert VpOk(s.vps[v], s.discarded);
      RunnerKeepsHome(s, v);
      RunnerKeepsKnown(s, v);
      RunnerKeepsPlace(s, v);
      RunnerKeepsBase(s, v);
      RunnerKeepsLink(s, v);
      RunnerKeepsVp(s, v);
    }
  }

  // ------------------------------------------------- the dispatcher

  predicate IsDispatch(a: Action) {
    a.Expire? || a.RunEvent? || a.StartRun?
  }

  lemma DispatchView(rec: BaseRec, b: Base, r: VpRec, r': VpRec, x: Base,
                     purging: bool, linked: bool, discarded: bool, frees: nat)
    requires Ok(ViewIn(rec, b, r, purging, linked, discarded, frees)) && r.handler == Quiet && x in r.scheduled
    requires r' == r.(scheduled := r.scheduled - {x}, handler := Swing(x))
    ensures Ok(ViewIn(rec, b, r', purging, linked, discarded, frees))
  {
  }

  lemma DispatchKeepsBase(s: State, a: Action)
    requires InvBase(s) && Enabled(s, a) && IsDispatch(a)
    ensures InvBase(Apply(s, a))
  {
    var s', r := Apply(s, a), s.vps[a.v];
    forall b | b in s'.bases && s'.bases[b].vp < |s.vps|
      ensures Ok(ViewOf(s', b))
    {
      assert Linked(s', b) == Linked(s, b);
      assert Ok(ViewOf(s, b));
      if s.bases[b].vp != a.v {
        SameView(s, s', b);
      } else if a.Expire? {
        DispatchView(s.bases[b], b, r, s'.vps[a.v], a.b, b in s.purged, Linked(s, b), b in s.discarded, s.frees[b]);
      }
    }
  }

  lemma DispatchKeepsHome(s: State, a: Action)
    requires InvHome(s) && InvKnown(s) && InvPlace(s) && Enabled(s, a) && IsDispatch(a)
    ensures InvHome(Apply(s, a)) && InvKnown(Apply(s, a)) && InvPlace(Apply(s, a))
  {
    PlaceKept(s.vps, s.purged, a.v, Apply(s, a).vps[a.v]);
    HomeKept(s.vps, s.bases, a.v, Apply(s, a).vps[a.v]);
  }

  lemma DispatchKeepsVp(r: VpRec, r': VpRec, discarded: set<Base>)
    requires VpOk(r, discarded)
    requires || (exists x :: r' == r.(scheduled := r.scheduled - {x}, handler := Swing(x)) && r.handler == Quiet)
             || (r.events > 0 && r' == r.(events := r.events - 1, softirq := true))
             || (r.runner == Off && r' == r.(softirq := false, runner := Swap))
    ensures VpOk(r', discarded)
  {
  }

  lemma DispatchKeepsVps(s: State, a: Action)
    requires InvVp(s) && Enabled(s, a) && IsDispatch(a)
    ensures InvVp(Apply(s, a))
  {
    var r, r' := s.vps[a.v], Apply(s, a).vps[a.v];
    assert VpOk(r, s.discarded);
    if a.Expire? {
      assert r' == r.(scheduled := r.scheduled - {a.b}, handler := Swing(a.b));
    }
    DispatchKeepsVp(r, r', s.discarded);
  }

  lemma DispatchKeeps(s: State, a: Action)
    requires Inv(s) && Enabled(s, a) && IsDispatch(a)
    ensures Inv(Apply(s, a))
  {
    DispatchKeepsHome(s, a);
    DispatchKeepsBase(s, a);
    DispatchKeepsVps(s, a);
  }

  // ------------------------------------------------- locked_discard

  /** The discard of an armed timer, on whatever anchor. */
  ghost predicate Discards(s: State, tm: Timer, a: Vp, x: Base) {
    tm in s.timers && s.timers[tm].base == Some(x) && x in s.bases && s.bases[x].timer == Some(tm) && a < |s.vps|
  }

  lemma DiscardView(w: View, rec: BaseRec)
    requires Ok(w) && w.linked && w.state == rec.state
    ensures Ok(w.(state := Discarded, linked := false, discarded := true, purging := w.purging || rec.state == Waiting))
  {
  }

  lemma DiscardKeepsBase(s: State, tm: Timer, a: Vp, x: Base)
    requires InvBase(s) && Discards(s, tm, a, x)
    ensures InvBase(Discard(s, tm, a))
  {
    var s' := Discard(s, tm, a);
    forall b | b in s'.bases && s'.bases[b].vp < |s.vps|
      ensures Ok(ViewOf(s', b))
    {
      assert Ok(ViewOf(s, b));
      if b == x {
        DiscardView(ViewOf(s, x), s.bases[x]);
      } else {
        ClearLinks(s, s', tm, x, b);
        SameView(s, s', b);
      }
    }
  }

  lemma DiscardKeepsHome(s: State, tm: Timer, a: Vp, x: Base)
    requires InvHome(s) && Discards(s, tm, a, x)
    ensures InvHome(Discard(s, tm, a))
  {
    var s' := Discard(s, tm, a);
    forall u, b | 0 <= u < |s.vps| && Mentions(s'.vps[u], b)
      ensures b in s'.bases && s'.bases[b].vp == u
    {
      assert Mentions(s.vps[u], b);
    }
  }

  lemma DiscardKeepsPlace(s: State, tm: Timer, a: Vp, x: Base)
    requires InvKnown(s) && InvPlace(s) && Discards(s, tm, a, x) && (s.bases[x].state == Waiting ==> x !in s.purged)
    ensures InvKnown(Discard(s, tm, a)) && InvPlace(Discard(s, tm, a))
  {
    var s' := Discard(s, tm, a);
    forall u, b | 0 <= u < |s.vps|
      ensures Listed(s'.vps[u], b) == if b in s'.purged && s'.purged[b] == u then 1 else 0
    {
      assert Listed(s.vps[u], b) == if b in s.purged && s.purged[b] == u then 1 else 0;
    }
  }

  lemma DiscardKeepsRecord(r: VpRec, r': VpRec, discarded: set<Base>, x: Base)
    requires VpOk(r, discarded) && x !in r.taken && r' == r.(purge := r'.purge)
    ensures VpOk(r', discarded + {x})
  {
    OutsideGrow(r.taken, discarded, x);
    assert Pipeline(r') == Pipeline(r);
  }

  lemma LinkedNotTaken(s: State, x: Base, v: Vp)
    requires InvHome(s) && InvBase(s) && Linked(s, x) && v < |s.vps|
    ensures x !in s.vps[v].taken
  {
    assert Ok(ViewOf(s, x));
    assert x in s.vps[v].taken ==> Mentions(s.vps[v], x);
  }

  lemma DiscardKeepsVp(s: State, tm: Timer, a: Vp, x: Base)
    requires InvVp(s) && Discards(s, tm, a, x)
    requires forall v :: 0 <= v < |s.vps| ==> x !in s.vps[v].taken
    ensures InvVp(Discard(s, tm, a))
  {
    var s' := Discard(s, tm, a);
    forall v | 0 <= v < |s.vps|
      ensures VpOk(s'.vps[v], s'.discarded)
    {
      assert s'.vps[v] == s.vps[v].(purge := s'.vps[v].purge) && s'.discarded == s.discarded + {x};
      DiscardKeepsRecord(s.vps[v], s'.vps[v], s.discarded, x);
    }
  }

  lemma DiscardKeepsLink(s: State, tm: Timer, a: Vp, x: Base)
    requires InvLink(s) && InvCaller(s) && Discards(s, tm, a, x)
    ensures InvLink(Discard(s, tm, a)) && InvCaller(Discard(s, tm, a))
  {
    var s' := Discard(s, tm, a);
    forall u | u in s'.timers && s'.timers[u].base.Some?
      ensures s'.timers[u].base.value != x
    {
    }
  }

  lemma DiscardKeepsBases(s: State, tm: Timer, a: Vp, x: Base)
    requires InvBases(s) && Discards(s, tm, a, x)
    ensures InvBases(Discard(s, tm, a))
  {
    DiscardKeepsHome(s, tm, a, x);
    assert Ok(ViewOf(s, x));
    DiscardKeepsPlace(s, tm, a, x);
    DiscardKeepsBase(s, tm, a, x);
    forall v | 0 <= v < |s.vps|
      ensures x !in s.vps[v].taken
    {
      LinkedNotTaken(s, x, v);
    }
    DiscardKeepsVp(s, tm, a, x);
  }

  lemma DiscardKeeps(s: State, tm: Timer, a: Vp)
    requires Inv(s) && tm in s.timers && a < |s.vps|
    ensures Inv(Discard(s, tm, a))
  {
    if s.timers[tm].base.Some? {
      var x := s.timers[tm].base.value;
      assert Discards(s, tm, a, x);
      DiscardKeepsBases(s, tm, a, x);
      DiscardKeepsLink(s, tm, a, x);
    }
  }

  // ------------------------------------------------- del_timer and __mod_timer

  /** Steps that leave every base, every VP and every timer's base alone. */
  ghost predicate OnlyCallers(s: State, s': State) {
    && s' == s.(callers := s'.callers, timers := s'.timers, fault := s'.fault)
    && forall tm :: BaseOf(s', tm) == BaseOf(s, tm)
  }

  lemma OnlyCallersKeepsView(s: State, s': State, b: Base)
    requires OnlyCallers(s, s') && b in s.bases && s.bases[b].vp < |s.vps|
    ensures ViewOf(s', b) == ViewOf(s, b)
  {
    assert Linked(s', b) == Linked(s, b);
  }

  lemma OnlyCallersKeepsBase(s: State, s': State)
    requires InvBase(s) && OnlyCallers(s, s')
    ensures InvBase(s')
  {
    forall b | b in s.bases && s.bases[b].vp < |s.vps|
      ensures Ok(ViewOf(s', b))
    {
      OnlyCallersKeepsView(s, s', b);
    }
  }

  lemma OnlyCallersKeeps(s: State, s': State)
    requires InvBases(s) && OnlyCallers(s, s')
    ensures InvBases(s')
  {
    OnlyCallersKeepsBase(s, s');
  }

  lemma CallerMovesFreely(s: State, t: Tid, k: Caller)
    requires InvLink(s) && InvCaller(s) && (t in s.callers ==> s.callers[t].at != ModLock) && k.at != ModLock
    ensures var s' := s.(callers := s.callers[t := k]); InvLink(s') && InvCaller(s') && OnlyCallers(s, s')
  {
  }

  /** A caller that holds no timer's lock can move without touching the rest. */
  lemma CallerMoves(s: State, t: Tid, k: Caller)
    requires Inv(s) && (t in s.callers ==> s.callers[t].at != ModLock) && k.at != ModLock
    ensures Inv(s.(callers := s.callers[t := k]))
  {
    CallerMovesFreely(s, t, k);
    OnlyCallersKeeps(s, s.(callers := s.callers[t := k]));
  }

  lemma DeleterDiscards(s: State, s1: State, t: Tid)
    requires Inv(s1) && Enabled(s, StepDeleter(t)) && s.callers[t].at == DelLock
    requires s1 == Discard(s, s.callers[t].timer, s.callers[t].vp)
    ensures Inv(AfterDeleter(s, t))
  {
    CallerMoves(s1, t, AfterDeleter(s, t).callers[t]);
  }

  lemma DeleterKeeps(s: State, t: Tid)
    requires Inv(s) && Enabled(s, StepDeleter(t))
    ensures Inv(AfterDeleter(s, t))
  {
    var k := s.callers[t];
    if k.at == DelLock {
      DiscardKeeps(s, k.timer, k.vp);
      DeleterDiscards(s, Discard(s, k.timer, k.vp), t);
    } else {
      CallerMoves(s, t, AfterDeleter(s, t).callers[t]);
    }
  }

  lemma ArmKeepsBase(s: State, tm: Timer, v: Vp, x: Base)
    requires InvHome(s) && InvKnown(s) && InvBase(s) && v < |s.vps|
    requires tm in s.timers && s.timers[tm].base.None? && x !in s.bases
    ensures InvBase(Arm(s, tm, v, x))
  {
    var s' := Arm(s, tm, v, x);
    assert !Mentions(s.vps[v], x);
    forall b | b in s'.bases && s'.bases[b].vp < |s.vps|
      ensures Ok(ViewOf(s', b))
    {
      if b != x {
        assert Linked(s', b) == Linked(s, b);
        assert Ok(ViewOf(s, b)) && ViewOf(s', b) == ViewOf(s, b);
      }
    }
  }

  lemma ArmKeepsHome(s: State, tm: Timer, v: Vp, x: Base)
    requires InvHome(s) && v < |s.vps| && x !in s.bases
    ensures InvHome(Arm(s, tm, v, x))
  {
    var s' := Arm(s, tm, v, x);
    forall u, b | 0 <= u < |s.vps| && Mentions(s'.vps[u], b)
      ensures b in s'.bases && s'.bases[b].vp == u
    {
      assert b == x || Mentions(s.vps[u], b);
    }
  }

  lemma ArmKeepsLink(s: State, tm: Timer, v: Vp, x: Base)
    requires InvKnown(s) && InvPlace(s) && InvLink(s) && v < |s.vps| && tm in s.timers && x !in s.bases
    ensures InvKnown(Arm(s, tm, v, x)) && InvPlace(Arm(s, tm, v, x)) && InvLink(Arm(s, tm, v, x))
  {
    PlaceKept(s.vps, s.purged, v, s.vps[v].(scheduled := s.vps[v].scheduled + {x}));
  }

  lemma ArmKeepsVp(s: State, tm: Timer, v: Vp, x: Base)
    requires InvVp(s) && v < |s.vps|
    ensures InvVp(Arm(s, tm, v, x))
  {
    assert VpOk(s.vps[v], s.discarded);
    assert Pipeline(Arm(s, tm, v, x).vps[v]) == Pipeline(s.vps[v]);
  }

  lemma ArmKeeps(s: State, tm: Timer, v: Vp, x: Base, callers: map<Tid, Caller>)
    requires InvBases(s) && InvLink(s) && v < |s.vps| && tm in s.timers && s.timers[tm].base.None? && x !in s.bases
    ensures var s' := Arm(s, tm, v, x).(callers := callers); InvBases(s') && InvLink(s')
  {
    ArmKeepsBase(s, tm, v, x);
    ArmKeepsHome(s, tm, v, x);
    ArmKeepsLink(s, tm, v, x);
    ArmKeepsVp(s, tm, v, x);
    OnlyCallersKeeps(Arm(s, tm, v, x), Arm(s, tm, v, x).(callers := callers));
  }

  /** While a modifier holds the timer's lock nobody else moves its anchor: `repeat` is never taken. */
  lemma AnchorUnmoved(s: State, t: Tid)
    requires InvCaller(s) && t in s.callers && s.callers[t].at == ModLock
    ensures s.callers[t].timer in s.timers && s.callers[t].oldAnchor == s.timers[s.callers[t].timer].anchor
  {
  }

  lemma ModifierKeepsCaller(s: State, t: Tid, x: Base)
    requires InvCaller(s) && Enabled(s, StepModifier(t, x))
    ensures InvCaller(AfterModifier(s, t, x))
  {
    AnchorUnmoved(s, t);
  }

  lemma DiscardShape(s: State, tm: Timer, a: Vp, x: Base)
    requires Discards(s, tm, a, x)
    ensures var s1 := Discard(s, tm, a);
            tm in s1.timers && s1.timers[tm].base.None? && s1.bases.Keys == s.bases.Keys && |s1.vps| == |s.vps|
  {
  }

  /** Re-arming an armed timer. */
  lemma ModifierRearms(s: State, t: Tid, x: Base)
    requires Inv(s) && Enabled(s, StepModifier(t, x))
    requires var k := s.callers[t];
             k.oldAnchor == s.timers[k.timer].anchor && k.oldAnchor.Some? && s.timers[k.timer].base.Some?
    ensures var s' := AfterModifier(s, t, x); InvBases(s') && InvLink(s')
  {
    var k, s' := s.callers[t], AfterModifier(s, t, x);
    var a := k.oldAnchor.value;
    var s1 := Discard(s, k.timer, a);
    DiscardKeeps(s, k.timer, a);
    DiscardShape(s, k.timer, a, s.timers[k.timer].base.value);
    ArmKeeps(s1, k.timer, k.vp, x, s'.callers);
  }

  /** Arming a timer that is not armed. */
  lemma ModifierArms(s: State, t: Tid, x: Base)
    requires Inv(s) && Enabled(s, StepModifier(t, x))
    requires var k := s.callers[t];
             k.oldAnchor == s.timers[k.timer].anchor && k.oldAnchor.None? && s.timers[k.timer].base.None?
    ensures var s' := AfterModifier(s, t, x); InvBases(s') && InvLink(s')
  {
    var k := s.callers[t];
    ArmKeeps(s, k.timer, k.vp, x, AfterModifier(s, t, x).callers);
  }

  lemma ModifierKeeps(s: State, t: Tid, x: Base)
    requires Inv(s) && Enabled(s, StepModifier(t, x))
    ensures Inv(AfterModifier(s, t, x))
  {
    var k := s.callers[t];
    AnchorUnmoved(s, t);
    ModifierKeepsCaller(s, t, x);
    if k.oldAnchor.None? {
      ModifierArms(s, t, x);
    } else if BaseOf(s, k.timer).None? {
      OnlyCallersKeeps(s, s.(fault := true));
    } else {
      ModifierRearms(s, t, x);
    }
  }

  lemma ModCallKeepsLink(s: State, a: Action)
    requires InvLink(s) && Enabled(s, a) && a.ModTimer?
    ensures InvLink(Apply(s, a)) && OnlyCallers(s, Apply(s, a))
  {
  }

  lemma ModCallKeepsCaller(s: State, a: Action)
    requires InvLink(s) && InvCaller(s) && Enabled(s, a) && a.ModTimer?
    ensures InvCaller(Apply(s, a))
  {
  }

  lemma ModCallKeeps(s: State, a: Action)
    requires Inv(s) && Enabled(s, a) && a.ModTimer?
    ensures Inv(Apply(s, a))
  {
    ModCallKeepsLink(s, a);
    ModCallKeepsCaller(s, a);
    OnlyCallersKeeps(s, Apply(s, a));
  }

  // ------------------------------------------------- every run

  lemma Keeps(s: State, a: Action)
    requires Inv(s) && Enabled(s, a)
    ensures Inv(Apply(s, a))
  {
    match a
    case StepHandler(v) => HandlerKeeps(s, v);
    case StepRunner(v) => RunnerKeeps(s, v);
    case DelTimer(t, _, _) => CallerMoves(s, t, Apply(s, a).callers[t]);
    case StepDeleter(t) => DeleterKeeps(s, t);
    case ModTimer(_, _, _) => ModCallKeeps(s, a);
    case StepModifier(t, b) => ModifierKeeps(s, t, b);
    case _ => DispatchKeeps(s, a);
  }

  lemma InitHolds(s: State)
    requires Init(s)
    ensures Inv(s)
  {
  }

  lemma {:induction false} RunKeeps(first: State, actions: seq<Action>, last: State)
    requires Inv(first) && Run(first, actions, last)
    ensures Inv(last)
    decreases |actions|
  {
    if actions != [] {
      Keeps(first, actions[0]);
      RunKeeps(Apply(first, actions[0]), actions[1..], last);
    }
  }

  lemma ReachableInv(s: State)
    requires Reachable(s)
    ensures Inv(s)
  {
    var first, actions :| Init(first) && Run(first, actions, s);
    InitHolds(first);
    RunKeeps(first, actions, s);
  }

  // ------------------------------------------------- runs without an unsettled deleter

  /** Purge and cleaning lists are at home too, and no handleEvent has a base that was deleted. */
  ghost predicate Tidy(s: State) {
    && (forall b :: b in s.purged && b in s.bases ==> s.bases[b].vp == s.purged[b])
    && (forall v :: 0 <= v < |s.vps| && s.vps[v].handler.Swing? ==> s.vps[v].handler.b !in s.frees)
  }

  lemma TidyClean(s: State, v: Vp)
    requires InvHome(s) && InvKnown(s) && InvPlace(s) && Tidy(s)
    requires v < |s.vps| && Cleans(s.vps[v]) && s.vps[v].handler == Quiet
    ensures Tidy(AfterClean(s, v))
  {
    var s', x := AfterClean(s, v), s.vps[v].cleaning[0];
    CleanIsPlaced(s, v);
    forall u | 0 <= u < |s.vps| && s'.vps[u].handler.Swing?
      ensures s'.vps[u].handler.b !in s'.frees
    {
      CleanRecords(s, v, u);
      assert Mentions(s.vps[u], s.vps[u].handler.b);
    }
  }

  lemma TidyRunnerOne(s: State, v: Vp, u: Vp, b: Base)
    requires v < |s.vps| && u < |s.vps| && InvOrder(s.vps[v]) && InvPhase(s.vps[v]) && s.vps[v].handler == Quiet
    requires s.vps[u].handler == Swing(b) && b !in s.frees && b in s.bases && s.bases[b].vp == u
    requires Mentions(s.vps[v], b) ==> s.bases[b].vp == v
    ensures b !in Freed(s, Deletes(s.vps[v], Calls(s, s.vps[v])))
  {
    RunnerMentions(s.vps[v], Calls(s, s.vps[v]), b);
  }

  lemma TidyRunner(s: State, v: Vp)
    requires InvHome(s) && Tidy(s) && v < |s.vps| && InvOrder(s.vps[v]) && InvPhase(s.vps[v])
    requires !Cleans(s.vps[v]) && s.vps[v].handler == Quiet
    ensures Tidy(AfterRunner(s, v))
  {
    var s' := AfterRunner(s, v);
    forall u | 0 <= u < |s.vps| && s'.vps[u].handler.Swing?
      ensures s'.vps[u].handler.b !in s'.frees
    {
      assert s'.vps[u].handler == s.vps[u].handler && Mentions(s.vps[u], s.vps[u].handler.b);
      TidyRunnerOne(s, v, u, s.vps[u].handler.b);
    }
  }

  lemma TidyHandler(s: State, v: Vp)
    requires Tidy(s) && v < |s.vps|
    ensures Tidy(AfterHandler(s, v))
  {
    var r' := HandlerNext(s.vps[v], IsWaiting(s, s.vps[v]));
    assert !r'.handler.Swing?;
  }

  lemma TidyDispatch(s: State, a: Action)
    requires Tidy(s) && Enabled(s, a) && IsDispatch(a) && (a.Expire? ==> a.b !in s.frees)
    ensures Tidy(Apply(s, a))
  {
    var r, r' := s.vps[a.v], Apply(s, a).vps[a.v];
    assert r'.handler == if a.Expire? then Swing(a.b) else r.handler;
  }

  /** A base in a queue has not been deleted. */
  lemma ScheduledIsLive(s: State, v: Vp, b: Base)
    requires InvHome(s) && InvBase(s) && v < |s.vps| && b in s.vps[v].scheduled
    ensures b !in s.frees
  {
    assert Mentions(s.vps[v], b);
    assert Ok(ViewOf(s, b));
  }

  lemma TidyDiscard(s: State, tm: Timer, a: Vp, x: Base)
    requires Tidy(s) && Discards(s, tm, a, x) && s.bases[x].vp == a
    ensures Tidy(Discard(s, tm, a))
  {
  }

  lemma TidyArm(s: State, tm: Timer, v: Vp, x: Base)
    requires InvKnown(s) && Tidy(s) && v < |s.vps| && x !in s.bases
    ensures Tidy(Arm(s, tm, v, x))
  {
  }

  lemma TidyRearm(s: State, tm: Timer, a: Vp, b: Base, v: Vp, x: Base)
    requires InvKnown(s) && Tidy(s) && Discards(s, tm, a, b) && s.bases[b].vp == a && v < |s.vps| && x !in s.bases
    ensures Tidy(Arm(Discard(s, tm, a), tm, v, x))
  {
    TidyDiscard(s, tm, a, b);
    TidyArm(Discard(s, tm, a), tm, v, x);
  }

  lemma TidyModifier(s: State, t: Tid, x: Base)
    requires InvKnown(s) && InvLink(s) && Tidy(s) && Enabled(s, StepModifier(t, x))
    requires s.callers[t].oldAnchor == s.timers[s.callers[t].timer].anchor
    ensures Tidy(AfterModifier(s, t, x))
  {
    var k := s.callers[t];
    if k.oldAnchor.None? {
      TidyArm(s, k.timer, k.vp, x);
    } else if BaseOf(s, k.timer).Some? {
      TidyRearm(s, k.timer, k.oldAnchor.value, s.timers[k.timer].base.value, k.vp, x);
    }
  }

  lemma TidyDeleter(s: State, t: Tid)
    requires InvLink(s) && Tidy(s) && Enabled(s, StepDeleter(t)) && Settled(s, StepDeleter(t))
    ensures Tidy(AfterDeleter(s, t))
  {
    var k := s.callers[t];
    if k.at == DelLock && BaseOf(s, k.timer).Some? {
      TidyDiscard(s, k.timer, k.vp, s.timers[k.timer].base.value);
    }
  }

  lemma TidyKeeps(s: State, a: Action)
    requires Inv(s) && Tidy(s) && Enabled(s, a) && Settled(s, a)
    ensures Tidy(Apply(s, a))
  {
    match a
    case StepRunner(v) =>
      if Cleans(s.vps[v]) {
        TidyClean(s, v);
      } else {
        assert VpOk(s.vps[v], s.discarded);
        TidyRunner(s, v);
      }
    case StepDeleter(t) => TidyDeleter(s, t);
    case StepModifier(t, b) =>
      AnchorUnmoved(s, t);
      TidyModifier(s, t, b);
    case DelTimer(_, _, _) =>
    case ModTimer(_, _, _) =>
    case StepHandler(v) => TidyHandler(s, v);
    case Expire(v, b) =>
      ScheduledIsLive(s, v, b);
      TidyDispatch(s, a);
    case RunEvent(_) => TidyDispatch(s, a);
    case StartRun(_) => TidyDispatch(s, a);
  }

  lemma {:induction false} SettledRunKeeps(first: State, actions: seq<Action>, last: State)
    requires Inv(first) && Tidy(first) && Run(first, actions, last) && AllSettled(first, actions)
    ensures Tidy(last)
    decreases |actions|
  {
    if actions != [] {
      Keeps(first, actions[0]);
      TidyKeeps(first, actions[0]);
      SettledRunKeeps(Apply(first, actions[0]), actions[1..], last);
    }
  }

  lemma SettledIsTidy(s: State)
    requires SettledReachable(s)
    ensures Reachable(s) && Tidy(s)
  {
    var first, actions :| Init(first) && Run(first, actions, s) && AllSettled(first, actions);
    InitHolds(first);
    SettledRunKeeps(first, actions, s);
  }
}
