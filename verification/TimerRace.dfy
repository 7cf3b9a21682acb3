/**
 * A deleter whose anchor is stale holds another lock than the runTimer that has the base
 * (lib/lk/Timer.C), so their accesses to base and timer interleave. One Fired base in the
 * runner's batch, the runner's accesses to it, the deleter's, and every interleaving.
 */
module TimerRace {
  import opened Prelude

  /** The runner's next access. */
  datatype RunnerAt =
    | TestState     // curr->state against Fired
    | TestTimer     // curr->timer against NULL
    | ReadFunction  // curr->timer->function
    | ReadData      // curr->timer->data
    | ClearBase     // curr->timer->base = NULL, then the lock is dropped
    | Call
    | Delete        // under the lock again
    | Finished

  /** The deleter's next access, under the stale anchor's lock. */
  datatype DeleterAt =
    | Test          // timer->base against NULL
    | Load          // timer->base, for locked_discard
    | ClearTimer    // base->timer = NULL
    | Swing         // the compare-and-store of base->state to Discarded
    | Unlink        // timer->base = NULL
    | Done
    | Skipped       // the test found NULL

  datatype Hazard =
    | NullTimer     // the runner follows a null curr->timer
    | NullBase      // the deleter follows a null timer->base
    | Freed         // the deleter writes to the deleted base

  /** `when` records where the deleter was at each of the runner's accesses. */
  datatype State = State(
    runner: RunnerAt, deleter: DeleterAt,
    discarded: bool,  // base->state is Discarded, else Fired
    linked: bool,     // base->timer is the timer, else NULL
    armed: bool,      // timer->base is the base, else NULL
    when: map<RunnerAt, DeleterAt>, hazard: Option<Hazard>, calledDiscarded: bool)

  const START := State(TestState, Test, false, true, true, map[], None, false)

  /** The access an unlinked base turns into a null reference. */
  predicate Follows(at: RunnerAt) {
    at == ReadFunction || at == ReadData || at == ClearBase
  }

  function RunnerNext(s: State): RunnerAt {
    match s.runner
    case TestState => if s.discarded then Delete else TestTimer
    case TestTimer => if s.linked then ReadFunction else Delete
    case ReadFunction => ReadData
    case ReadData => ClearBase
    case ClearBase => Call
    case Call => Delete
    case _ => Finished
  }

  function AfterRunner(s: State): State {
    if s.runner == Finished then s else
    var s := s.(when := s.when[s.runner := s.deleter]);
    if Follows(s.runner) && !s.linked then s.(hazard := Some(NullTimer))
    else s.(runner := RunnerNext(s), armed := s.armed && s.runner != ClearBase,
            calledDiscarded := s.calledDiscarded || (s.runner == Call && s.discarded))
  }

  function AfterDeleter(s: State): State {
    match s.deleter
    case Test => s.(deleter := if s.armed then Load else Skipped)
    case Load => if s.armed then s.(deleter := ClearTimer) else s.(hazard := Some(NullBase))
    case ClearTimer =>
      if s.runner == Finished then s.(hazard := Some(Freed)) else s.(deleter := Swing, linked := false)
    case Swing =>
      if s.runner == Finished then s.(hazard := Some(Freed)) else s.(deleter := Unlink, discarded := true)
    case Unlink => s.(deleter := Done, armed := false)
    case _ => s
  }

  datatype Who = Runner | Deleter

  /** Nobody moves after a hazard. */
  function Next(s: State, who: Who): State {
    if s.hazard.Some? then s else if who == Runner then AfterRunner(s) else AfterDeleter(s)
  }

  /** The state after an interleaving. */
  function After(run: seq<Who>): State {
    if run == [] then START else Next(After(run[..|run| - 1]), run[|run| - 1])
  }

  predicate Ended(s: State) {
    s.hazard.Some? || (s.runner == Finished && (s.deleter == Done || s.deleter == Skipped))
  }

  // ------------------------------------------------- what every interleaving keeps

  /** base->timer was cleared before the deleter came here. */
  predicate Unlinked(d: DeleterAt) {
    d == Swing || d == Unlink || d == Done
  }

  /** base->state was set before the deleter came here. */
  predicate Swung(d: DeleterAt) {
    d == Unlink || d == Done
  }

  predicate InvFields(s: State) {
    && s.linked == !Unlinked(s.deleter)
    && s.discarded == Swung(s.deleter)
    && s.armed == !(s.deleter == Done || (ClearBase in s.when && s.hazard != Some(NullTimer)))
    && (s.deleter == Skipped ==> ClearBase in s.when)
  }

  /** Where the deleter can be after the runner cleared timer->base. */
  predicate InvCleared(s: State) {
    ClearBase in s.when && s.hazard != Some(NullTimer) ==>
      match s.when[ClearBase]
      case Test => s.deleter == Test || s.deleter == Skipped
      case Load => s.deleter == Load
      case ClearTimer => s.deleter == ClearTimer || Unlinked(s.deleter)
      case _ => false
  }

  /** What the runner has done. */
  predicate InvRunner(s: State) {
    && (Follows(s.runner) ==> TestTimer in s.when && !Unlinked(s.when[TestTimer]))
    && (s.runner == TestState || s.runner == TestTimer ==> forall at :: at in s.when ==> !Follows(at))
    && (ClearBase in s.when && s.hazard != Some(NullTimer) ==>
          s.runner == Call || s.runner == Delete || s.runner == Finished)
    && (ClearBase in s.when && s.hazard == Some(NullTimer) ==> s.runner == ClearBase)
    && (s.runner == Call || Call in s.when ==> ClearBase in s.when)
    && (Call in s.when ==> s.runner == Delete || s.runner == Finished)
    && (s.runner == Delete && ClearBase !in s.when ==> Unlinked(s.deleter))
    && (Delete in s.when <==> s.runner == Finished)
    && (Delete in s.when && ClearBase !in s.when ==> Unlinked(s.when[Delete]))
  }

  /** Where the deleter was when the base was deleted. */
  predicate InvDelete(s: State) {
    Delete in s.when ==>
      && (Unlinked(s.when[Delete]) ==> Unlinked(s.deleter))
      && (Swung(s.when[Delete]) ==> Swung(s.deleter))
      && (ClearBase in s.when && s.when[ClearBase] == ClearTimer ==>
            s.when[Delete] == ClearTimer || Unlinked(s.when[Delete]))
  }

  /** What came of it. */
  predicate InvHazard(s: State) {
    && (s.hazard == Some(NullTimer) ==> Follows(s.runner) && s.runner in s.when && Unlinked(s.when[s.runner]))
    && (s.hazard != Some(NullTimer) ==> forall at :: at in s.when && Follows(at) ==> !Unlinked(s.when[at]))
    && (s.hazard == Some(NullBase) ==> ClearBase in s.when && s.when[ClearBase] == Load)
    && (s.hazard == Some(Freed) ==> Delete in s.when && (s.when[Delete] == ClearTimer || s.when[Delete] == Swing))
    && (Delete in s.when && (s.when[Delete] == ClearTimer || s.when[Delete] == Swing) ==> s.deleter == s.when[Delete])
    && (Call in s.when && Swung(s.when[Call]) ==> Swung(s.deleter))
    && (s.calledDiscarded <==> Call in s.when && Swung(s.when[Call]))
  }

  predicate Inv(s: State) {
    InvFields(s) && InvCleared(s) && InvRunner(s) && InvDelete(s) && InvHazard(s)
  }

  lemma RunnerKeeps(s: State)
    requires Inv(s) && s.hazard.None?
    ensures Inv(AfterRunner(s))
  {
  }

  lemma DeleterKeeps(s: State)
    requires Inv(s) && s.hazard.None?
    ensures Inv(AfterDeleter(s))
  {
  }

  lemma {:induction false} RunKeeps(run: seq<Who>)
    ensures Inv(After(run))
  {
    if run != [] {
      var s := After(run[..|run| - 1]);
      RunKeeps(run[..|run| - 1]);
      if s.hazard.None? {
        RunnerKeeps(s);
        DeleterKeeps(s);
      }
    }
  }

  // ------------------------------------------------- exactly when the race goes wrong

  /**
   * The runner follows a null timer exactly if the deleter cleared base->timer after the
   * runner's test of it and before its last use.
   */
  lemma NullTimerExact(run: seq<Who>)
    requires Ended(After(run))
    ensures var s := After(run);
      s.hazard == Some(NullTimer) <==>
        && TestTimer in s.when && !Unlinked(s.when[TestTimer])
        && exists at :: at in s.when && Follows(at) && Unlinked(s.when[at])
  {
    RunKeeps(run);
  }

  /** The deleter follows a null base exactly if the runner cleared timer->base between its two reads. */
  lemma NullBaseExact(run: seq<Who>)
    requires Ended(After(run))
    ensures var s := After(run);
      s.hazard == Some(NullBase) <==> ClearBase in s.when && s.when[ClearBase] == Load
  {
    RunKeeps(run);
    NullBaseIn(After(run));
  }

  lemma NullBaseIn(s: State)
    requires Inv(s) && Ended(s)
    ensures s.hazard == Some(NullBase) <==> ClearBase in s.when && s.when[ClearBase] == Load
  {
    match s.hazard
    case None =>
    case Some(h) => assert h == NullTimer || h == NullBase || h == Freed;
  }

  /** The deleter writes to a deleted base exactly if the runner deleted it between its load and its last write. */
  lemma FreedExact(run: seq<Who>)
    requires Ended(After(run))
    ensures var s := After(run);
      s.hazard == Some(Freed) <==> Delete in s.when && (s.when[Delete] == ClearTimer || s.when[Delete] == Swing)
  {
    RunKeeps(run);
    FreedIn(After(run));
  }

  lemma FreedIn(s: State)
    requires Inv(s) && Ended(s)
    ensures s.hazard == Some(Freed) <==> Delete in s.when && (s.when[Delete] == ClearTimer || s.when[Delete] == Swing)
  {
    match s.hazard
    case None =>
    case Some(h) => assert h == NullTimer || h == NullBase || h == Freed;
  }

  /**
   * The function of a discarded arming is called exactly if the deleter had loaded the base when
   * the runner cleared timer->base, and had set the state when the runner made the call.
   */
  lemma DiscardedCalledExact(run: seq<Who>)
    ensures var s := After(run);
      s.calledDiscarded <==>
        && ClearBase in s.when && s.when[ClearBase] == ClearTimer
        && Call in s.when && Swung(s.when[Call])
  {
    RunKeeps(run);
  }

  /** Under one lock the runner's accesses up to ClearBase, and its delete, are not inside the deleter's section. */
  ghost predicate OneLock(s: State) {
    && (forall at :: at in s.when && at != Call ==> s.when[at] == Test || s.when[at] == Done || s.when[at] == Skipped)
    && (forall at, bt :: at in s.when && bt in s.when && at != Call && at != Delete && bt != Call && bt != Delete ==>
          s.when[at] == s.when[bt])
  }

  /** Then nothing goes wrong: what the timer theorems say of a deleter's section as one step. */
  lemma OneLockIsSafe(run: seq<Who>)
    requires Ended(After(run)) && OneLock(After(run))
    ensures After(run).hazard.None? && !After(run).calledDiscarded
  {
    NullTimerExact(run);
    NullBaseExact(run);
    FreedExact(run);
    DiscardedCalledExact(run);
  }

  // ------------------------------------------------- runs

  lemma Step(run: seq<Who>, who: Who) returns (longer: seq<Who>)
    ensures After(longer) == Next(After(run), who)
  {
    longer := run + [who];
    assert longer[..|longer| - 1] == run;
  }

  /** The deleter has loaded the base, the runner has tested it. */
  lemma BothHaveIt() returns (run: seq<Who>)
    ensures After(run) ==
            State(ReadFunction, ClearTimer, false, true, true,
                  map[TestState := ClearTimer, TestTimer := ClearTimer], None, false)
  {
    run := Step([], Deleter);
    run := Step(run, Deleter);
    run := Step(run, Runner);
    run := Step(run, Runner);
  }

  /** The runner follows a null timer. */
  lemma NullTimerFollowed() returns (run: seq<Who>)
    ensures After(run).hazard == Some(NullTimer)
  {
    run := BothHaveIt();
    run := Step(run, Deleter);
    run := Step(run, Runner);
  }

  lemma RunnerCleared() returns (run: seq<Who>)
    ensures var s := After(run); s == State(Call, ClearTimer, false, true, false, s.when, None, false)
  {
    run := BothHaveIt();
    run := Step(run, Runner);
    run := Step(run, Runner);
    run := Step(run, Runner);
  }

  /** The function of a discarded arming is called. */
  lemma DiscardedCalled() returns (run: seq<Who>)
    ensures After(run).hazard.None? && After(run).calledDiscarded
  {
    run := RunnerCleared();
    run := Step(run, Deleter);
    run := Step(run, Deleter);
    run := Step(run, Runner);
  }

  lemma RunnerDone() returns (run: seq<Who>)
    ensures var s := After(run); s.runner == Finished && s.deleter == ClearTimer && s.hazard.None?
  {
    run := RunnerCleared();
    run := Step(run, Runner);
    assert After(run).runner == Delete && After(run).deleter == ClearTimer && After(run).hazard.None?;
    run := Step(run, Runner);
  }

  /** The deleter writes to the deleted base. */
  lemma FreedWritten() returns (run: seq<Who>)
    ensures After(run).hazard == Some(Freed)
  {
    run := RunnerDone();
    run := Step(run, Deleter);
  }

  lemma DeleterTested() returns (run: seq<Who>)
    ensures var s := After(run); s == State(ReadFunction, Load, false, true, true, s.when, None, false)
  {
    run := Step([], Deleter);
    run := Step(run, Runner);
    run := Step(run, Runner);
  }

  /** The deleter follows a null base. */
  lemma NullBaseFollowed() returns (run: seq<Who>)
    ensures After(run).hazard == Some(NullBase)
  {
    run := DeleterTested();
    run := Step(run, Runner);
    run := Step(run, Runner);
    run := Step(run, Runner);
    run := Step(run, Deleter);
  }
}
