/** The heights of the indexer: which block comes next, when the recorded height is in step with it, and when it
    survives a revert.

    The structure of queue, current task and observer (`Consistent`) holds in every run without a watchdog report under
    the lock.  The recorded height is in its place in such a run if and only if no event slips; what makes an event slip
    is one of three causes, each of which is shown to happen, with the exact condition under which it does, and each
    of which any revert that reaches the observer repairs. */
module Heights {
  import opened Common
  import opened Indexer

  /** The lowest height that no task has completed: that of the current task, else of the oldest queued one, else
      the next to be queued. */
  function NextHeight(s: State): int {
    s.bestTip - |s.queue| - if s.current.Some? then 1 else 0
  }

  predicate Near(recorded: int, next: int) {
    recorded == next || recorded + 1 == next
  }

  /** The recorded height is the block about to be processed, or the one right below it. */
  predicate InStep(s: State) {
    Near(s.pending, NextHeight(s))
  }

  predicate Settled(s: State) {
    s.reverts == [] && !s.poisoned
  }

  /** Whenever no revert is in flight, the heights are in step. */
  predicate InPlace(s: State) {
    Settled(s) ==> InStep(s)
  }

  /** The observer has been set back to the height of the revert. */
  ghost predicate Landed(s: State) {
    s.reverts != [] && s.reverts[0].phase == Notifying
  }

  /** The running task is still the current one and no revert has cancelled it. */
  ghost predicate InTouch(s: State) {
    s.reverts == [] && s.current.Some?
  }

  ghost predicate RunnerFits(s: State)
    requires s.runners != []
  {
    var r := s.runners[0];
    && (s.current.Some? ==> r.task.tip == NextHeight(s))
    && (if InTouch(s) then !r.task.flagged && !r.task.aborted else r.task.aborted)
    && (InTouch(s) && r.phase == Recording ==> s.pending == r.task.tip)
    && (r.phase.WatchdogReturned? || r.phase.ErrorReturned? ==> s.current.None?)
  }

  ghost predicate FreshQueue(s: State) {
    forall i :: 0 <= i < |s.queue| ==> !s.queue[i].flagged && !s.queue[i].aborted
  }

  /** What holds in every run without a watchdog report under a lock. */
  ghost predicate Consistent(s: State) {
    && Locked(s) && FreshQueue(s)
    && (s.runners != [] ==> RunnerFits(s))
    && (Landed(s) ==> NextHeight(s) == s.reverts[0].from)
  }

  // ----- which steps lose the place -----

  /** A block fails where nothing is reverted: the recorded height is 0 or 1. */
  ghost predicate GivesUp(s: State, e: Event) {
    e.Throw? && Enabled(s, e) && !s.chainReorged && s.current.Some? && s.pending <= 1
  }

  /** A task that a revert has cut off records its height afterwards; a revert that fails before it touched storage has
      dropped tasks; a revert ends after such a late record; a failed block is given up. */
  ghost predicate Slips(s: State, e: Event) {
    match e
    case Record(i) => Enabled(s, e) && Settled(s) && s.current.None? && !Near(s.runners[i].task.tip, NextHeight(s))
    case Sent(_, ok) => Enabled(s, e) && !ok && !Near(s.pending, s.bestTip)
    case Notified(_, ok) => Enabled(s, e) && ok && !Near(s.pending, s.bestTip)
    case Throw(_) => GivesUp(s, e) && s.pending + 1 == NextHeight(s)
    case _ => false
  }

  // ----- every step keeps the structure -----

  lemma StartKeepsConsistent(s: State)
    requires Consistent(s)
    ensures Consistent(StartTasks(s)) && NextHeight(StartTasks(s)) == NextHeight(s)
    ensures StartTasks(s).pending == s.pending && StartTasks(s).reverts == s.reverts && StartTasks(s).poisoned == s.poisoned
  {
    StartKeepsLocked(s);
    FillKeeps(s, Room(s));
    FillOrders(s, Room(s));
    if !s.chainReorged {
      FillKeepsPlace(s, Room(s));
    }
  }

  lemma {:induction false} FillKeepsPlace(s: State, n: nat)
    requires FreshQueue(s)
    ensures NextHeight(FillQueue(s, n)) == NextHeight(s) && FreshQueue(FillQueue(s, n))
    decreases n
  {
    if n > 0 && s.target >= s.bestTip {
      FillKeepsPlace(NextTask(s), n - 1);
    }
  }

  /** Letting go of the current task moves the place up by one; letting go of a cut-off task does not. */
  lemma ReleaseKeepsConsistent(s: State, i: nat, restart: bool)
    requires Locked(s) && FreshQueue(s) && i < |s.runners|
    requires Landed(s) ==> NextHeight(s) == s.reverts[0].from
    ensures var s' := Release(s, i, restart);
      && Consistent(s') && s'.pending == s.pending && s'.reverts == s.reverts && s'.poisoned == s.poisoned
      && NextHeight(s') == NextHeight(s) + if s.current.Some? then 1 else 0
  {
    ReleaseKeepsLocked(s, i);
    var freed := s.(taskInProgress := false, current := None, runners := Without(s.runners, i));
    assert freed.runners == [];
    assert Locked(freed);
    StartKeepsConsistent(freed);
  }

  lemma FailedKeepsConsistent(s: State, i: nat)
    requires Consistent(s) && i < |s.runners|
    ensures Consistent(Failed(s, i))
  {
    FailedKeepsLocked(s, i);
    ReleaseKeepsConsistent(s, i, true);
    ReleaseKeepsConsistent(s, i, false);
  }

  lemma NewTarget(s: State, h: nat)
    requires Consistent(s)
    ensures Consistent(s.(target := h))
  {
    assert Locked(s.(target := h));
  }

  lemma BeginKeepsConsistent(s: State, origin: Origin, from: nat)
    requires Consistent(s) && !s.chainReorged
    ensures Consistent(BeginRevert(s, origin, from))
  {
    BeginKeepsLocked(s, origin, from);
  }

  lemma EventKeepsConsistent(s: State, e: Event)
    requires Consistent(s) && Enabled(s, e) && (e.BlockChange? || e.Resume?)
    ensures Consistent(Step(s, e))
  {
    match e
    case BlockChange(h) =>
      NewTarget(s, h);
      if IsRegression(s, h) {
        BeginKeepsConsistent(s.(target := h), Regression, h);
      } else {
        StartKeepsConsistent(s.(target := h));
      }
    case Resume =>
      assert Locked(s.(resumes := s.resumes - 1));
      StartKeepsConsistent(s.(resumes := s.resumes - 1));
  }

  lemma RevertKeepsConsistent(s: State, e: Event)
    requires Consistent(s) && Enabled(s, e) && (e.Stopped? || e.Sent? || e.Observed? || e.Notified?)
    ensures Consistent(Step(s, e))
  {
    RevertKeepsLocked(s, e);
    match e
    case Stopped(j) =>
    case Sent(j, ok) =>
      if !ok {
        EndKeepsConsistent(s, j, false, false);
      }
    case Observed(j, ok, t) =>
      if !ok {
        EndKeepsConsistent(s, j, false, true);
      }
    case Notified(j, ok) => EndKeepsConsistent(s, j, ok, !ok);
  }

  lemma EndKeepsConsistent(s: State, j: nat, ok: bool, keepLock: bool)
    requires Consistent(s) && j < |s.reverts| && s.reverts[j].phase != Stopping
    ensures Consistent(EndRevert(s, j, ok, keepLock))
    ensures var s' := EndRevert(s, j, ok, keepLock);
      s'.reverts == [] && NextHeight(s') == s.bestTip && s'.pending == s.pending && (s'.poisoned <==> s.poisoned || keepLock)
  {
    EndKeepsLocked(s, j, ok, keepLock);
  }

  lemma PhaseKeepsConsistent(s: State, e: Event)
    requires Consistent(s) && Enabled(s, e)
    requires e.Verify? || e.NoReorg? || e.Complete? || e.Record? || (e.Continue? && s.runners[e.i].phase == WatchdogReturned(true))
    ensures Consistent(Step(s, e)) && NextHeight(Step(s, e)) == NextHeight(s)
    ensures Step(s, e).reverts == s.reverts && Step(s, e).poisoned == s.poisoned
    ensures Step(s, e).pending == if e.Record? then s.runners[e.i].task.tip else s.pending
  {
    StepKeepsLocked(s, e);
  }

  lemma DetectKeepsConsistent(s: State, i: nat, from: nat)
    requires Consistent(s) && Enabled(s, Detect(i, from)) && !s.chainReorged
    ensures Consistent(Step(s, Detect(i, from)))
  {
    var asked := At(s, i, InWatchdogRevert);
    assert Locked(asked) && NextHeight(asked) == NextHeight(s);
    BeginKeepsConsistent(asked, Watchdog, from);
  }

  lemma StepKeepsConsistent(s: State, e: Event)
    requires Consistent(s) && Enabled(s, e) && !Intrudes(s, e)
    ensures Consistent(Step(s, e))
  {
    match e
    case BlockChange(_) => EventKeepsConsistent(s, e);
    case Resume => EventKeepsConsistent(s, e);
    case Return(i) => ReleaseKeepsConsistent(s, i, true);
    case Finish(i) => ReleaseKeepsConsistent(s, i, true);
    case Throw(i) => FailedKeepsConsistent(s, i);
    case Continue(i) =>
      if s.runners[i].phase == ErrorReturned {
        ReleaseKeepsConsistent(s, i, true);
      } else if s.runners[i].phase == WatchdogReturned(false) {
        FailedKeepsConsistent(s, i);
      } else {
        PhaseKeepsConsistent(s, e);
      }
    case Detect(i, from) => DetectKeepsConsistent(s, i, from);
    case Verify(_) => PhaseKeepsConsistent(s, e);
    case NoReorg(_) => PhaseKeepsConsistent(s, e);
    case Complete(_) => PhaseKeepsConsistent(s, e);
    case Record(_) => PhaseKeepsConsistent(s, e);
    case _ => RevertKeepsConsistent(s, e);
  }

  // ----- a step keeps the place exactly when it does not slip -----

  lemma EventKeepsPlace(s: State, e: Event)
    requires Consistent(s) && InPlace(s) && Enabled(s, e) && (e.BlockChange? || e.Resume?)
    ensures InPlace(Step(s, e))
  {
    match e
    case BlockChange(h) =>
      if !IsRegression(s, h) {
        StartKeepsConsistent(s.(target := h));
      }
    case Resume =>
      assert Locked(s.(resumes := s.resumes - 1));
      StartKeepsConsistent(s.(resumes := s.resumes - 1));
  }

  /** Why a task is let go without having completed. */
  lemma ReturnKeepsPlace(s: State, i: nat)
    requires Consistent(s) && InPlace(s) && i < |s.runners|
    requires InTouch(s) ==> s.runners[i].phase == Recording
    ensures InPlace(Release(s, i, true))
  {
    ReleaseKeepsConsistent(s, i, true);
  }

  /** A failed block is passed over exactly when nothing is reverted. */
  lemma FailureExactly(s: State, i: nat)
    requires Consistent(s) && InPlace(s) && i < |s.runners|
    ensures InPlace(Failed(s, i)) <==> !(!s.chainReorged && s.current.Some? && s.pending <= 1 && s.pending + 1 == NextHeight(s))
  {
    ReleaseKeepsConsistent(s, i, true);
    ReleaseKeepsConsistent(s, i, false);
  }

  lemma RevertExactly(s: State, e: Event)
    requires Consistent(s) && InPlace(s) && Enabled(s, e) && (e.Stopped? || e.Sent? || e.Observed? || e.Notified?)
    ensures InPlace(Step(s, e)) <==> !Slips(s, e)
  {
    match e
    case Stopped(j) =>
    case Sent(j, ok) => EndKeepsConsistent(s, j, false, false);
    case Observed(j, ok, t) => EndKeepsConsistent(s, j, false, true);
    case Notified(j, ok) => EndKeepsConsistent(s, j, ok, !ok);
  }

  lemma RecordExactly(s: State, i: nat)
    requires Consistent(s) && InPlace(s) && Enabled(s, Record(i))
    ensures InPlace(Step(s, Record(i))) <==> !Slips(s, Record(i))
  {
    PhaseKeepsConsistent(s, Record(i));
  }

  /** A step takes the node out of its place if and only if it slips. */
  lemma StepKeepsPlaceExactly(s: State, e: Event)
    requires Consistent(s) && InPlace(s) && Enabled(s, e) && !Intrudes(s, e)
    ensures InPlace(Step(s, e)) <==> !Slips(s, e)
  {
    match e
    case BlockChange(_) => EventKeepsPlace(s, e);
    case Resume => EventKeepsPlace(s, e);
    case Return(i) => ReturnKeepsPlace(s, i);
    case Finish(i) => ReturnKeepsPlace(s, i);
    case Throw(i) => FailureExactly(s, i);
    case Record(i) => RecordExactly(s, i);
    case Continue(i) =>
      if s.runners[i].phase == ErrorReturned {
        ReturnKeepsPlace(s, i);
      } else if s.runners[i].phase == WatchdogReturned(false) {
        FailureExactly(s, i);
      } else {
        PhaseKeepsConsistent(s, e);
      }
    case Detect(i, from) =>
    case Verify(_) => PhaseKeepsConsistent(s, e);
    case NoReorg(_) => PhaseKeepsConsistent(s, e);
    case Complete(_) => PhaseKeepsConsistent(s, e);
    case _ => RevertExactly(s, e);
  }

  // ----- every run -----

  lemma NextKeepsConsistent(s: State, e: Event)
    requires Consistent(s) && !Intrudes(s, e)
    ensures Consistent(Next(s, e))
    ensures InPlace(s) ==> (InPlace(Next(s, e)) <==> !Slips(s, e))
  {
    if Enabled(s, e) {
      StepKeepsConsistent(s, e);
      if InPlace(s) {
        StepKeepsPlaceExactly(s, e);
      }
    }
  }

  lemma {:induction false} QuietRunIsConsistent(s: State, events: seq<Event>, n: nat)
    requires n <= |events| && Consistent(s) && NeverIntrudes(s, events, n)
    ensures Consistent(After(s, events, n))
  {
    if n > 0 {
      QuietRunIsConsistent(s, events, n - 1);
      NextKeepsConsistent(After(s, events, n - 1), events[n - 1]);
    }
  }

  /** None of the first `n` events slips. */
  ghost predicate NeverSlips(s: State, events: seq<Event>, n: nat)
    requires n <= |events|
  {
    n > 0 ==> NeverSlips(s, events, n - 1) && !Slips(After(s, events, n - 1), events[n - 1])
  }

  /** The node is in place before, between and after the first `n` events. */
  ghost predicate AlwaysInPlace(s: State, events: seq<Event>, n: nat)
    requires n <= |events|
  {
    InPlace(After(s, events, n)) && (n > 0 ==> AlwaysInPlace(s, events, n - 1))
  }

  /** In every run without a watchdog report under a lock, the next block is the recorded one or the one above it
      whenever no revert is in flight, if and only if no event slips. */
  lemma {:induction false} InOrderExactlyWhen(s: State, events: seq<Event>, n: nat)
    requires n <= |events| && Consistent(s) && InPlace(s) && NeverIntrudes(s, events, n)
    ensures AlwaysInPlace(s, events, n) <==> NeverSlips(s, events, n)
  {
    if n > 0 {
      InOrderExactlyWhen(s, events, n - 1);
      QuietRunIsConsistent(s, events, n - 1);
      NextKeepsConsistent(After(s, events, n - 1), events[n - 1]);
    }
  }

  // ----- where slips come from -----

  /** A regression that meets a task which is past its last check and will record another height. */
  ghost predicate Overwrites(s: State, h: nat) {
    IsRegression(s, h) && s.runners != [] && s.runners[0].phase == Completing && s.runners[0].task.tip != h
  }

  /** The causes: such a regression; a revert that fails after it dropped tasks; a block given up. */
  ghost predicate Upsets(s: State, e: Event) {
    match e
    case BlockChange(h) => Overwrites(s, h)
    case Sent(_, _) => Slips(s, e)
    case Throw(_) => Slips(s, e)
    case _ => false
  }

  /** In place, and a cut-off task that is past its last check will only record the height that is recorded already. */
  ghost predicate Steady(s: State) {
    Consistent(s) && InPlace(s) && LateIsHarmless(s)
  }

  ghost predicate LateIsHarmless(s: State) {
    && (Landed(s) ==> s.pending == s.reverts[0].from)
    && (s.runners != [] && s.runners[0].phase == Completing && !InTouch(s) && !s.poisoned ==>
          s.runners[0].task.tip == s.pending && (s.reverts != [] ==> s.reverts[0].from == s.pending))
  }

  lemma StepKeepsLateHarmless(s: State, e: Event)
    requires Steady(s) && Enabled(s, e) && !Intrudes(s, e) && !Upsets(s, e)
    ensures LateIsHarmless(Step(s, e))
  {
    match e
    case BlockChange(h) => EventKeepsLateHarmless(s, e);
    case Resume => EventKeepsLateHarmless(s, e);
    case Return(i) => ReleaseKeepsLateHarmless(s, i);
    case Finish(i) => ReleaseKeepsLateHarmless(s, i);
    case Throw(i) => FailureKeepsLateHarmless(s, i);
    case Continue(i) =>
      ReleaseKeepsLateHarmless(s, i);
      FailureKeepsLateHarmless(s, i);
    case Sent(_, _) => RevertKeepsLateHarmless(s, e);
    case Observed(_, _, _) => RevertKeepsLateHarmless(s, e);
    case Notified(_, _) => RevertKeepsLateHarmless(s, e);
    case Stopped(_) => RevertKeepsLateHarmless(s, e);
    case Verify(_) => PhaseKeepsLateHarmless(s, e);
    case NoReorg(_) => PhaseKeepsLateHarmless(s, e);
    case Detect(_, _) => PhaseKeepsLateHarmless(s, e);
    case Complete(_) => PhaseKeepsLateHarmless(s, e);
    case Record(_) => PhaseKeepsLateHarmless(s, e);
  }

  lemma EventKeepsLateHarmless(s: State, e: Event)
    requires Steady(s) && Enabled(s, e) && (e.BlockChange? || e.Resume?) && !Upsets(s, e)
    ensures LateIsHarmless(Step(s, e))
  {
    match e
    case BlockChange(h) => StartIsNotLate(s.(target := h));
    case Resume => StartIsNotLate(s.(resumes := s.resumes - 1));
  }

  lemma PhaseKeepsLateHarmless(s: State, e: Event)
    requires Steady(s) && Enabled(s, e) && !Intrudes(s, e)
    requires e.Verify? || e.NoReorg? || e.Complete? || e.Record? || e.Detect?
    ensures LateIsHarmless(Step(s, e))
  {
  }

  lemma ReleaseKeepsLateHarmless(s: State, i: nat)
    requires Steady(s) && i < |s.runners|
    ensures LateIsHarmless(Release(s, i, true)) && LateIsHarmless(Release(s, i, false))
  {
    ReleaseIsNotLate(s, i, true);
    ReleaseIsNotLate(s, i, false);
  }

  lemma FailureKeepsLateHarmless(s: State, i: nat)
    requires Steady(s) && i < |s.runners|
    ensures LateIsHarmless(Failed(s, i))
  {
    ReleaseKeepsLateHarmless(s, i);
  }

  /** Starting tasks neither moves a running task on nor touches the recorded height. */
  lemma StartIsNotLate(s: State)
    requires OneTask(s)
    ensures var s' := StartTasks(s);
      && s'.pending == s.pending && s'.reverts == s.reverts
      && ((s'.runners == s.runners && s'.current == s.current) || (s'.runners != [] && s'.runners[0].phase == Preparing))
  {
    FillKeeps(s, Room(s));
  }

  lemma ReleaseIsNotLate(s: State, i: nat, restart: bool)
    requires OneTask(s) && i < |s.runners|
    ensures var s' := Release(s, i, restart);
      && s'.pending == s.pending && s'.reverts == s.reverts
      && (s'.runners == [] || s'.runners[0].phase == Preparing)
  {
    var freed := s.(taskInProgress := false, current := None, runners := Without(s.runners, i));
    assert freed.runners == [];
    StartIsNotLate(freed);
  }

  lemma RevertKeepsLateHarmless(s: State, e: Event)
    requires Steady(s) && Enabled(s, e) && (e.Stopped? || e.Sent? || e.Observed? || e.Notified?)
    ensures LateIsHarmless(Step(s, e))
  {
    match e
    case Stopped(j) =>
    case Sent(j, ok) =>
    case Observed(j, ok, t) =>
    case Notified(j, ok) =>
  }

  ghost predicate Harmless(s: State, e: Event) {
    !Intrudes(s, e) && !Upsets(s, e)
  }

  /** None of the first `n` events is a watchdog report under a lock or one of the causes. */
  ghost predicate Calm(s: State, events: seq<Event>, n: nat)
    requires n <= |events|
  {
    n > 0 ==> Calm(s, events, n - 1) && Harmless(After(s, events, n - 1), events[n - 1])
  }

  lemma NextKeepsSteady(s: State, e: Event)
    requires Steady(s) && Harmless(s, e)
    ensures Steady(Next(s, e))
  {
    NextKeepsConsistent(s, e);
    if Enabled(s, e) {
      StepKeepsLateHarmless(s, e);
    }
  }

  lemma {:induction false} CalmRunIsSteady(s: State, events: seq<Event>, n: nat)
    requires n <= |events| && Steady(s) && Calm(s, events, n)
    ensures Steady(After(s, events, n))
  {
    if n > 0 {
      CalmRunIsSteady(s, events, n - 1);
      NextKeepsSteady(After(s, events, n - 1), events[n - 1]);
    }
  }

  /** In every run without these causes, whenever no revert is in flight, the next block is the recorded one or the one
      above it, and the current task is for it. */
  lemma BlocksComeInOrder(prefetch: nat, height: nat, target: nat, events: seq<Event>, n: nat)
    requires n <= |events| && Calm(Init(prefetch, height, target), events, n)
    ensures var s := After(Init(prefetch, height, target), events, n);
      InPlace(s) && (s.current.Some? ==> s.runners != [] && s.runners[0].task.tip == NextHeight(s))
  {
    var s := Init(prefetch, height, target);
    CalmRunIsSteady(s, events, n);
  }

  // ----- how the place is regained -----

  /** Once a revert has set the observer back, recorded and next height are the height of the revert, whatever they
      were before. */
  lemma RevertRegainsPlace(s: State, j: nat, t: nat)
    requires Consistent(s) && Enabled(s, Observed(j, true, t))
    ensures var s' := Step(s, Observed(j, true, t)); Landed(s') && s'.pending == NextHeight(s') == s.reverts[j].from
  {
  }

  // ----- a regression keeps the node in its place exactly when -----

  /** The revert runs through, and then the task that was past its last check records its height. */
  function LateCompletion(): seq<Event> {
    [Stopped(0), Stopped(0), Sent(0, true), Observed(0, true, 0), Notified(0, true), Record(0)]
  }

  /** After a regression to `h`, every calm continuation keeps the node in its place if and only if no task was past
      its last check with another height when the regression came. */
  lemma RevertedHeightSurvives(s: State, h: nat)
    requires Steady(s) && IsRegression(s, h)
    ensures (forall events :: Calm(Step(s, BlockChange(h)), events, |events|) ==>
               InPlace(After(Step(s, BlockChange(h)), events, |events|)))
       <==> !Overwrites(s, h)
  {
    var s' := Step(s, BlockChange(h));
    if Overwrites(s, h) {
      LateCompletionLosesPlace(s, h);
    } else {
      NextKeepsSteady(s, BlockChange(h));
      forall events | Calm(s', events, |events|) ensures InPlace(After(s', events, |events|)) {
        CalmRunIsSteady(s', events, |events|);
      }
    }
  }

  lemma LateCompletionLosesPlace(s: State, h: nat)
    requires Steady(s) && Overwrites(s, h)
    ensures var events := LateCompletion(); var s' := Step(s, BlockChange(h));
      Calm(s', events, |events|) && !InPlace(After(s', events, |events|))
  {
    var events, s', tip := LateCompletion(), Step(s, BlockChange(h)), s.runners[0].task.tip;
    UpToModified(s', events, h, tip);
    FromModified(s', events, h, tip);
  }

  lemma UpToModified(s: State, events: seq<Event>, h: nat, tip: nat)
    requires events == LateCompletion() && Stage(s, h, tip, Stopping)
    ensures Calm(s, events, 3) && Stage(After(s, events, 3), h, tip, Modified)
  {
    StageStopped(s, h, tip, Stopping);
    CalmOnce(s, events, 0);
    StageStopped(After(s, events, 1), h, tip, StoppingAgain);
    CalmOnce(s, events, 1);
    CalmOnce(s, events, 2);
  }

  lemma CalmOnce(s: State, events: seq<Event>, n: nat)
    requires n < |events| && Calm(s, events, n) && Harmless(After(s, events, n), events[n])
    ensures Calm(s, events, n + 1) && After(s, events, n + 1) == Next(After(s, events, n), events[n])
  {
  }

  lemma FromModified(s: State, events: seq<Event>, h: nat, tip: nat)
    requires events == LateCompletion() && Calm(s, events, 3) && Stage(After(s, events, 3), h, tip, Modified) && tip > h > 0
    ensures Calm(s, events, 6) && !InPlace(After(s, events, 6))
  {
    StageObserved(After(s, events, 3), h, tip);
    CalmOnce(s, events, 3);
    StageNotified(After(s, events, 4), h, tip);
    CalmOnce(s, events, 4);
    LateRecord(After(s, events, 5), h, tip);
    CalmOnce(s, events, 5);
  }

  /** The revert to `h` is in this phase, and a task of height `tip` is past its last check. */
  ghost predicate Stage(s: State, h: nat, tip: nat, phase: RevertPhase) {
    && s.reverts == [Revert(Regression, h, phase)] && s.chainReorged && !s.poisoned && s.taskInProgress
    && |s.runners| == 1 && s.runners[0].phase == Completing && s.runners[0].task.tip == tip
    && (phase != Stopping ==> s.queue == [] && s.current.None?)
  }

  lemma StageStopped(s: State, h: nat, tip: nat, phase: RevertPhase)
    requires Stage(s, h, tip, phase) && (phase == Stopping || phase == StoppingAgain)
    ensures Harmless(s, Stopped(0))
    ensures Stage(Next(s, Stopped(0)), h, tip, if phase == Stopping then StoppingAgain else Sending)
  {
  }

  lemma StageObserved(s: State, h: nat, tip: nat)
    requires Stage(s, h, tip, Modified)
    ensures Harmless(s, Observed(0, true, 0))
    ensures var s' := Next(s, Observed(0, true, 0)); Stage(s', h, tip, Notifying) && s'.bestTip == h && s'.target == 0
  {
  }

  lemma StageNotified(s: State, h: nat, tip: nat)
    requires Stage(s, h, tip, Notifying) && s.bestTip == h && s.target == 0
    ensures Harmless(s, Notified(0, true))
    ensures Unlocked(Next(s, Notified(0, true)), h, tip)
  {
  }

  ghost predicate Unlocked(s: State, h: nat, tip: nat) {
    && s.reverts == [] && !s.chainReorged && !s.poisoned && s.taskInProgress
    && |s.runners| == 1 && s.runners[0].phase == Completing && s.runners[0].task.tip == tip
    && s.queue == [] && s.current.None? && s.bestTip == h && s.target == 0
  }

  lemma LateRecord(s: State, h: nat, tip: nat)
    requires Unlocked(s, h, tip) && tip > h > 0
    ensures Harmless(s, Record(0)) && !InPlace(Next(s, Record(0)))
  {
  }

  // ----- each cause happens -----

  function Running(id: nat, tip: nat, phase: RunnerPhase, target: nat, pending: nat): State {
    State(1, true, false, true, Some(id), [], [Runner(Task(id, tip, false, false), phase)], [], false, 0, id + 1, tip + 1, target, pending)
  }

  /** From start-up to the first task's last check. */
  lemma FirstBlock(height: nat, target: nat, events: seq<Event>)
    requires height <= target && |events| >= 4 && events[0] == BlockChange(target)
    requires events[1] == Verify(0) && events[2] == NoReorg(0) && events[3] == Complete(0)
    ensures After(Init(1, height, target), events, 4) == Running(0, height, Completing, target, height)
  {
    FirstTaskRuns(height, target, events);
    var s0 := Init(1, height, target);
    Verified(height, target);
    OneMore(s0, events, 2, Running(0, height, Verifying, target, height), Running(0, height, Finishing, target, height));
    OneMore(s0, events, 3, Running(0, height, Finishing, target, height), Running(0, height, Completing, target, height));
  }

  lemma FirstTaskRuns(height: nat, target: nat, events: seq<Event>)
    requires height <= target && |events| >= 2 && events[0] == BlockChange(target) && events[1] == Verify(0)
    ensures After(Init(1, height, target), events, 2) == Running(0, height, Verifying, target, height)
  {
    var s0 := Init(1, height, target);
    Begins(height, target);
    OneMore(s0, events, 0, s0, Running(0, height, Preparing, target, height));
    OneMore(s0, events, 1, Running(0, height, Preparing, target, height), Running(0, height, Verifying, target, height));
  }

  lemma OneMore(s: State, events: seq<Event>, n: nat, before: State, after: State)
    requires n < |events| && After(s, events, n) == before && Next(before, events[n]) == after
    ensures After(s, events, n + 1) == after
  {
  }

  lemma Begins(height: nat, target: nat)
    requires height <= target
    ensures Next(Init(1, height, target), BlockChange(target)) == Running(0, height, Preparing, target, height)
    ensures Next(Running(0, height, Preparing, target, height), Verify(0)) == Running(0, height, Verifying, target, height)
  {
    var s := FirstTask(height, target);
  }

  lemma Verified(height: nat, target: nat)
    ensures Next(Running(0, height, Verifying, target, height), NoReorg(0)) == Running(0, height, Finishing, target, height)
    ensures Next(Running(0, height, Finishing, target, height), Complete(0)) == Running(0, height, Completing, target, height)
  {
  }

  lemma NextBlock(tip: nat, id: nat, target: nat, pending: nat)
    requires tip < target
    ensures Next(Running(id, tip, Completing, target, pending), Record(0)) == Running(id, tip, Recording, target, tip)
    ensures Next(Running(id, tip, Recording, target, tip), Finish(0)) == Running(id + 1, tip + 1, Preparing, target, tip)
  {
    var s := Running(id, tip, Recording, target, tip);
    var freed := s.(taskInProgress := false, current := None, runners := []);
    assert Without(s.runners, 0) == [];
    assert Room(freed) == 1 && FillQueue(freed, 1) == FillQueue(NextTask(freed), 0) == NextTask(freed);
  }

  /** A replaced tip can meet a task that is past its last check. */
  lemma OverwriteExample(height: nat, target: nat, h: nat)
    requires 0 < h < height <= target
    ensures var s := After(Init(1, height, target), [BlockChange(target), Verify(0), NoReorg(0), Complete(0)], 4);
      Overwrites(s, h) && Steady(s)
  {
    FirstBlock(height, target, [BlockChange(target), Verify(0), NoReorg(0), Complete(0)]);
  }

  lemma SecondBlock(height: nat, target: nat, events: seq<Event>)
    requires height < target && |events| >= 6 && events[0] == BlockChange(target)
    requires events[1] == Verify(0) && events[2] == NoReorg(0) && events[3] == Complete(0)
    requires events[4] == Record(0) && events[5] == Finish(0)
    ensures After(Init(1, height, target), events, 6) == Running(1, height + 1, Preparing, target, height)
  {
    FirstBlock(height, target, events);
    FirstBlockDone(Init(1, height, target), height, target, events);
  }

  lemma FirstBlockDone(s: State, height: nat, target: nat, events: seq<Event>)
    requires height < target && |events| >= 6 && events[4] == Record(0) && events[5] == Finish(0)
    requires After(s, events, 4) == Running(0, height, Completing, target, height)
    ensures After(s, events, 6) == Running(1, height + 1, Preparing, target, height)
  {
    NextBlock(height, 0, target, height);
    OneMore(s, events, 4, Running(0, height, Completing, target, height), Running(0, height, Recording, target, height));
    OneMore(s, events, 5, Running(0, height, Recording, target, height), Running(1, height + 1, Preparing, target, height));
  }

  /** A revert that fails before it touches storage loses the place if and only if it has dropped tasks: the next height to
      be queued is then neither the recorded one nor the one above it. */
  lemma FailedRevertExactly(s: State, j: nat)
    requires Consistent(s) && Enabled(s, Sent(j, false))
    ensures var s' := Step(s, Sent(j, false));
      Settled(s') && NextHeight(s') == s.bestTip && (InStep(s') <==> s.bestTip == s.pending || s.bestTip == s.pending + 1)
  {
    EndKeepsConsistent(s, j, false, false);
  }

  /** It happens: the block in process is dropped, and the node goes on with the one after it. */
  lemma FailedRevertDropsBlock(height: nat, target: nat)
    requires 0 < height < target
    ensures var events := [BlockChange(target), Verify(0), NoReorg(0), Complete(0), Record(0), Finish(0),
                           BlockChange(height), Stopped(0), Stopped(0), Sent(0, false)];
      var s := After(Init(1, height, target), events, 10);
      Settled(s) && s.pending == height && NextHeight(s) == height + 2
  {
    var events := [BlockChange(target), Verify(0), NoReorg(0), Complete(0), Record(0), Finish(0),
                   BlockChange(height), Stopped(0), Stopped(0), Sent(0, false)];
    SecondBlock(height, target, events);
    RevertFails(Init(1, height, target), events, 6, Running(1, height + 1, Preparing, target, height), height);
  }

  lemma RevertFails(s: State, events: seq<Event>, n: nat, before: State, h: nat)
    requires n + 4 <= |events| && After(s, events, n) == before && IsRegression(before, h) && before.reverts == [] && !before.poisoned
    requires events[n] == BlockChange(h) && events[n + 1] == events[n + 2] == Stopped(0) && events[n + 3] == Sent(0, false)
    ensures var s' := After(s, events, n + 4); Settled(s') && s'.pending == before.pending && NextHeight(s') == before.bestTip
  {
    FailedRevert(before, h);
    FourMore(s, events, n);
  }

  lemma FourMore(s: State, events: seq<Event>, n: nat)
    requires n + 4 <= |events|
    ensures After(s, events, n + 4)
      == Next(Next(Next(Next(After(s, events, n), events[n]), events[n + 1]), events[n + 2]), events[n + 3])
  {
    assert After(s, events, n + 2) == Next(Next(After(s, events, n), events[n]), events[n + 1]);
  }

  lemma FailedRevert(s: State, h: nat)
    requires IsRegression(s, h) && s.reverts == [] && !s.poisoned
    ensures var s' := Next(Next(Next(Next(s, BlockChange(h)), Stopped(0)), Stopped(0)), Sent(0, false));
      Settled(s') && s'.pending == s.pending && NextHeight(s') == s.bestTip
  {
  }

  /** A block that is given up is passed over, while the recorded height stays. */
  lemma GivingUpExactly(s: State, i: nat)
    requires Consistent(s) && GivesUp(s, Throw(i))
    ensures var s' := Step(s, Throw(i));
      Settled(s') && NextHeight(s') == NextHeight(s) + 1 && s'.pending == s.pending
  {
    ReleaseKeepsConsistent(s, i, false);
  }

  /** It happens right above height 0 or 1. */
  lemma FirstBlocksArePassedOver(height: nat, target: nat)
    requires height <= 1 && height < target
    ensures var events := [BlockChange(target), Verify(0), NoReorg(0), Complete(0), Record(0), Finish(0), Throw(0)];
      var s := After(Init(1, height, target), events, 7);
      Settled(s) && s.pending == height && NextHeight(s) == height + 2
  {
    var events := [BlockChange(target), Verify(0), NoReorg(0), Complete(0), Record(0), Finish(0), Throw(0)];
    var s := Running(1, height + 1, Preparing, target, height);
    SecondBlock(height, target, events);
    GivingUpExactly(s, 0);
    OneMore(Init(1, height, target), events, 6, s, Next(s, Throw(0)));
  }

  // ----- an error brings a lost place back -----

  /** The error revert of the block in process runs through. */
  function ErrorRevert(t: nat): seq<Event> {
    [Throw(0), Stopped(0), Stopped(0), Sent(0, true), Observed(0, true, t), Notified(0, true), Continue(0)]
  }

  /** From any place, lost or not, an error in the current block brings the node back to the recorded height, provided
      that is above 1 and the revert goes through.  A block whose predecessor was passed over ends in such an error,
      because its previous checksum is missing. */
  lemma ErrorRegainsPlace(s: State, t: nat)
    requires Consistent(s) && Settled(s) && s.current.Some? && s.pending > 1 && Enabled(s, Throw(0))
    ensures var s' := After(s, ErrorRevert(t), 7);
      Consistent(s') && Settled(s') && s'.pending == s.pending == NextHeight(s')
  {
    var events := ErrorRevert(t);
    ErrorBegins(s, events);
    ErrorLands(s, events, t);
    ErrorEnds(s, events);
  }

  /** The error revert from the recorded height is in this phase, and its task waits for it. */
  ghost predicate ErrorStage(s: State, from: nat, phase: RevertPhase) {
    && Consistent(s) && !s.poisoned && s.pending == from
    && s.reverts == [Revert(ProcessingError, from, phase)]
    && s.runners != [] && s.runners[0].phase == InErrorRevert
  }

  lemma ErrorBegins(s: State, events: seq<Event>)
    requires Consistent(s) && Settled(s) && s.current.Some? && s.pending > 1 && Enabled(s, Throw(0))
    requires |events| == 7 && events[0] == Throw(0) && events[1] == events[2] == Stopped(0)
    ensures ErrorStage(After(s, events, 3), s.pending, Sending)
  {
    FailedKeepsConsistent(s, 0);
    var s1 := Next(s, Throw(0));
    assert After(s, events, 1) == s1 && ErrorStage(s1, s.pending, Stopping);
    ErrorStops(s1, s.pending, Stopping);
    var s2 := Next(s1, Stopped(0));
    assert After(s, events, 2) == s2;
    ErrorStops(s2, s.pending, StoppingAgain);
    assert After(s, events, 3) == Next(s2, Stopped(0));
  }

  lemma ErrorStops(s: State, from: nat, phase: RevertPhase)
    requires ErrorStage(s, from, phase) && (phase == Stopping || phase == StoppingAgain)
    ensures ErrorStage(Next(s, Stopped(0)), from, if phase == Stopping then StoppingAgain else Sending)
  {
    StepKeepsConsistent(s, Stopped(0));
  }

  lemma ErrorLands(s: State, events: seq<Event>, t: nat)
    requires |events| == 7 && events[3] == Sent(0, true) && events[4] == Observed(0, true, t)
    requires ErrorStage(After(s, events, 3), s.pending, Sending)
    ensures ErrorStage(After(s, events, 5), s.pending, Notifying)
  {
    var s3 := After(s, events, 3);
    StepKeepsConsistent(s3, Sent(0, true));
    var s4 := Next(s3, Sent(0, true));
    assert After(s, events, 4) == s4 && ErrorStage(s4, s.pending, Modified);
    StepKeepsConsistent(s4, Observed(0, true, t));
    assert After(s, events, 5) == Next(s4, Observed(0, true, t));
  }

  lemma ErrorEnds(s: State, events: seq<Event>)
    requires |events| == 7 && events[5] == Notified(0, true) && events[6] == Continue(0)
    requires ErrorStage(After(s, events, 5), s.pending, Notifying)
    ensures var s' := After(s, events, 7); Consistent(s') && Settled(s') && s'.pending == s.pending == NextHeight(s')
  {
    var s5 := After(s, events, 5);
    ErrorReturns(s5, s.pending);
    var s6 := Next(s5, Notified(0, true));
    OneMore(s, events, 5, s5, s6);
    ReleaseKeepsConsistent(s6, 0, true);
    OneMore(s, events, 6, s6, Release(s6, 0, true));
  }

  lemma ErrorReturns(s: State, from: nat)
    requires ErrorStage(s, from, Notifying)
    ensures var s' := Next(s, Notified(0, true));
      && Consistent(s') && Settled(s') && s'.pending == from == NextHeight(s') && s'.current.None?
      && s'.runners != [] && s'.runners[0].phase == ErrorReturned && Next(s', Continue(0)) == Release(s', 0, true)
  {
    EndKeepsConsistent(s, 0, true, false);
  }
}
