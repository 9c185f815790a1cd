/** Runs of the indexer from end to end: where a revert takes the node, which block comes next, and what becomes of a
    cancelled task.  Every run is a list of events that the environment can choose, and its end is described by the
    fields of the state alone: heights, queue, running task and lock.  Each of the three origins of a revert is
    followed to the task that comes after it. */
module IndexerRuns {
  import opened Common
  import opened Indexer
  import opened Heights

  // ----- reverts -----

  /** A revert that goes through, from its first `await` to the observer's new height. */
  function Through(t: nat): seq<Event> {
    [Stopped(0), Stopped(0), Sent(0, true), Observed(0, true, t)]
  }

  /** The only revert has set everything back to its height. */
  ghost predicate RevertedTo(s: State, from: nat, t: nat) {
    && s.pending == from && s.bestTip == from && s.target == t
    && s.queue == [] && s.current.None? && s.chainReorged
    && |s.reverts| == 1 && s.reverts[0].from == from && s.reverts[0].phase == Notifying
  }

  lemma FourMoreNext(s: State, events: seq<Event>)
    requires |events| == 5
    ensures After(s, events, 5)
      == Next(Next(Next(Next(Next(s, events[0]), events[1]), events[2]), events[3]), events[4])
  {
    assert After(s, events, 1) == Next(s, events[0]);
    assert After(s, events, 2) == Next(After(s, events, 1), events[1]);
    assert After(s, events, 3) == Next(After(s, events, 2), events[2]);
    assert After(s, events, 4) == Next(After(s, events, 3), events[3]);
  }

  lemma RevertGoesThrough(s: State, origin: Origin, from: nat, t: nat)
    requires s.reverts == [Revert(origin, from, Stopping)] && s.chainReorged
    ensures var s' := Next(Next(Next(Next(s, Stopped(0)), Stopped(0)), Sent(0, true)), Observed(0, true, t));
      && RevertedTo(s', from, t) && s'.reverts[0].origin == origin
      && s'.started == s.started && s'.prefetch == s.prefetch && s'.taskInProgress == s.taskInProgress && s'.resumes == s.resumes
      && |s'.runners| == |s.runners| && forall k :: 0 <= k < |s.runners| ==> s'.runners[k].phase == s.runners[k].phase
  {
  }

  /** A reorganisation that the watchdog reports takes the node back to the reported height. */
  lemma WatchdogReverts(s: State, i: nat, from: nat, t: nat)
    requires Enabled(s, Detect(i, from)) && s.reverts == []
    ensures RevertedTo(After(s, [Detect(i, from)] + Through(t), 5), from, t)
  {
    var events := [Detect(i, from)] + Through(t);
    FourMoreNext(s, events);
    RevertGoesThrough(Next(s, Detect(i, from)), Watchdog, from, t);
  }

  /** A block event at or below the recorded height takes the node back to that block. */
  lemma RegressionReverts(s: State, h: nat, t: nat)
    requires s.started && !s.chainReorged && 0 < h <= s.pending && s.reverts == []
    ensures RevertedTo(After(s, [BlockChange(h)] + Through(t), 5), h, t)
  {
    var events := [BlockChange(h)] + Through(t);
    FourMoreNext(s, events);
    RevertGoesThrough(Next(s, BlockChange(h)), Regression, h, t);
  }

  /** An error in the current block takes the node back to the recorded height. */
  lemma ErrorReverts(s: State, i: nat, t: nat)
    requires Enabled(s, Throw(i)) && !s.chainReorged && s.current.Some? && s.pending > 1 && s.reverts == []
    requires forall k :: 0 <= k < |s.runners| ==> !s.runners[k].task.flagged
    ensures RevertedTo(After(s, [Throw(i)] + Through(t), 5), s.pending, t)
  {
    var events := [Throw(i)] + Through(t);
    FourMoreNext(s, events);
    RevertGoesThrough(Next(s, Throw(i)), ProcessingError, s.pending, t);
  }

  /** A revert that fails after it modified storage leaves the node locked for good; one that fails before unlocks it and
      leaves the heights alone. */
  lemma FailedReverts(s: State, j: nat, t: nat)
    requires j < |s.reverts| && s.chainReorged
    ensures Enabled(s, Observed(j, false, t)) ==> var s' := Step(s, Observed(j, false, t)); s'.poisoned && s'.chainReorged
    ensures Enabled(s, Notified(j, false)) ==> var s' := Step(s, Notified(j, false)); s'.poisoned && s'.chainReorged
    ensures Enabled(s, Sent(j, false)) ==>
      var s' := Step(s, Sent(j, false));
      !s'.chainReorged && s'.poisoned == s.poisoned && s'.pending == s.pending && s'.bestTip == s.bestTip && s'.target == s.target
  {
  }

  // ----- and then? -----

  /** A task for this height has just been started, alone. */
  ghost predicate Processes(s: State, height: nat) {
    && s.taskInProgress && !s.chainReorged && |s.runners| == 1
    && s.runners[0] == Runner(Task(s.runners[0].task.id, height, false, false), Preparing)
    && s.current == Some(s.runners[0].task.id)
  }

  lemma {:induction false} FillMeans(s: State, n: nat)
    ensures var f, room := FillQueue(s, n), if s.target < s.bestTip then 0 else s.target - s.bestTip + 1;
      && |f.queue| == |s.queue| + (if n < room then n else room) && f.bestTip == s.bestTip + |f.queue| - |s.queue|
      && f.queue[..|s.queue|] == s.queue
      && f == s.(queue := f.queue, bestTip := f.bestTip, nextId := f.nextId)
      && forall k :: |s.queue| <= k < |f.queue| ==>
           f.queue[k].tip == s.bestTip + k - |s.queue| && !f.queue[k].flagged && !f.queue[k].aborted
    decreases n
  {
    if n > 0 && s.target >= s.bestTip {
      FillMeans(NextTask(s), n - 1);
    }
  }

  /** An unlocked idle node whose target has been reached by no task takes up the next height. */
  lemma StartMeans(s: State)
    requires !s.chainReorged && !s.taskInProgress && s.runners == [] && s.queue == [] && s.prefetch > 0 && s.target >= s.bestTip
    ensures Processes(StartTasks(s), s.bestTip) && StartTasks(s).pending == s.pending && StartTasks(s).target == s.target
  {
    FillMeans(s, Room(s));
  }

  /** After a watchdog report the cancelled task returns without completing, and the node goes on with the reported height. */
  lemma WatchdogGoesOn(s: State, from: nat, t: nat)
    requires OneTask(s) && Enabled(s, Detect(0, from)) && s.reverts == [] && s.prefetch > 0 && from <= t
    ensures var s' := After(s, [Detect(0, from)] + Through(t), 5);
      var s'' := Next(Next(Next(s', Notified(0, true)), Continue(0)), Return(0));
      Processes(s'', from) && s''.pending == from
  {
    var events := [Detect(0, from)] + Through(t);
    FourMoreNext(s, events);
    RevertGoesThrough(Next(s, Detect(0, from)), Watchdog, from, t);
    WatchdogReturns(After(s, events, 5), from, t);
  }

  lemma WatchdogReturns(s: State, from: nat, t: nat)
    requires RevertedTo(s, from, t) && s.reverts[0].origin == Watchdog && |s.runners| == 1 && s.runners[0].phase == InWatchdogRevert
    requires s.prefetch > 0 && from <= t
    ensures var s' := Next(Next(Next(s, Notified(0, true)), Continue(0)), Return(0)); Processes(s', from) && s'.pending == from
  {
    WatchdogWakes(s, from, t);
    var s2 := Next(Next(s, Notified(0, true)), Continue(0));
    var freed := s2.(taskInProgress := false, current := None, runners := Without(s2.runners, 0));
    assert freed.runners == [];
    StartMeans(freed);
  }

  lemma WatchdogWakes(s: State, from: nat, t: nat)
    requires RevertedTo(s, from, t) && s.reverts[0].origin == Watchdog && |s.runners| == 1 && s.runners[0].phase == InWatchdogRevert
    ensures var s' := Next(Next(s, Notified(0, true)), Continue(0));
      && !s'.chainReorged && |s'.runners| == 1 && s'.runners[0].phase == Finishing && s'.runners[0].task.flagged
      && s'.pending == from && s'.bestTip == from && s'.target == t && s'.queue == [] && s'.prefetch == s.prefetch
  {
    var s1 := Next(s, Notified(0, true));
    assert s1.runners[0].phase == WatchdogReturned(true) && !s1.chainReorged;
  }

  /** After a regression an idle node goes on with the replaced block. */
  lemma RegressionGoesOn(s: State, h: nat, t: nat)
    requires OneTask(s) && s.started && !s.chainReorged && 0 < h <= s.pending && s.reverts == []
    requires !s.taskInProgress && s.prefetch > 0 && h <= t
    ensures var s' := After(s, [BlockChange(h)] + Through(t), 5);
      var s'' := Next(Next(s', Notified(0, true)), Resume);
      Processes(s'', h) && s''.pending == h
  {
    var events := [BlockChange(h)] + Through(t);
    FourMoreNext(s, events);
    RevertGoesThrough(Next(s, BlockChange(h)), Regression, h, t);
    RegressionReturns(After(s, events, 5), h, t);
  }

  lemma RegressionReturns(s: State, h: nat, t: nat)
    requires RevertedTo(s, h, t) && s.reverts[0].origin == Regression && !s.taskInProgress && s.runners == []
    requires s.prefetch > 0 && h <= t
    ensures var s' := Next(Next(s, Notified(0, true)), Resume); Processes(s', h) && s'.pending == h
  {
    var s1 := Next(s, Notified(0, true));
    assert s1.resumes > 0 && !s1.chainReorged && s1.runners == [];
    StartMeans(s1.(resumes := s1.resumes - 1));
  }

  /** A block that nothing disturbs: its height is recorded, and the next height is taken up. */
  lemma BlockGoesOn(s: State)
    requires Consistent(s) && s.reverts == [] && !s.poisoned && s.current.Some? && s.runners[0].phase == Preparing
    requires s.bestTip <= s.target && s.prefetch > 0
    ensures var tip := s.runners[0].task.tip;
      var s' := Next(Next(Next(Next(Next(s, Verify(0)), NoReorg(0)), Complete(0)), Record(0)), Finish(0));
      Processes(s', tip + 1) && s'.pending == tip
  {
    var r := s.runners[0];
    var s4 := s.(pending := r.task.tip, runners := [Runner(r.task, Recording)]);
    Completes(s);
    var freed := s4.(taskInProgress := false, current := None, runners := Without(s4.runners, 0));
    assert freed.runners == [] && freed.bestTip - |freed.queue| == r.task.tip + 1;
    Restarts(freed, r.task.tip + 1);
  }

  lemma Completes(s: State)
    requires Consistent(s) && s.reverts == [] && !s.poisoned && s.current.Some? && s.runners[0].phase == Preparing
    ensures var r := s.runners[0];
      Next(Next(Next(Next(s, Verify(0)), NoReorg(0)), Complete(0)), Record(0))
      == s.(pending := r.task.tip, runners := [Runner(r.task, Recording)])
  {
    var r := s.runners[0];
    assert s.runners == [r];
    assert Next(s, Verify(0)).runners == [Runner(r.task, Verifying)];
    assert Next(Next(s, Verify(0)), NoReorg(0)).runners == [Runner(r.task, Finishing)];
    assert Next(Next(Next(s, Verify(0)), NoReorg(0)), Complete(0)).runners == [Runner(r.task, Completing)];
  }

  /** An unlocked node between two tasks takes up the oldest queued height. */
  lemma Restarts(s: State, height: nat)
    requires !s.chainReorged && !s.taskInProgress && s.runners == [] && Ordered(s) && FreshQueue(s)
    requires s.bestTip - |s.queue| == height && s.bestTip <= s.target && s.prefetch > 0
    ensures Processes(StartTasks(s), height) && StartTasks(s).pending == s.pending
  {
    FillMeans(s, Room(s));
    var f := FillQueue(s, Room(s));
    assert s.queue != [] ==> f.queue[0] == f.queue[..|s.queue|][0] == s.queue[0];
  }

  /** A block event above the recorded height starts an idle node on the next height, and tops up the queue of a busy one whose
      queue is empty. */
  lemma BlockEventGoesOn(s: State, h: nat)
    requires OneTask(s) && !s.chainReorged && h > s.pending && h >= s.bestTip && s.prefetch > 0 && s.queue == []
    ensures var s' := Step(s, BlockChange(h));
      && s'.started && s'.target == h && s'.pending == s.pending
      && (!s.taskInProgress ==> Processes(s', s.bestTip))
      && (s.taskInProgress ==> s'.runners == s.runners)
      && (s.taskInProgress ==> |s'.queue| == if s.prefetch < h - s.bestTip + 1 then s.prefetch else h - s.bestTip + 1)
      && (s.taskInProgress ==> forall k :: 0 <= k < |s'.queue| ==> s'.queue[k].tip == s.bestTip + k)
  {
    var seen := s.(target := h);
    FillMeans(seen, Room(seen));
    if !s.taskInProgress {
      assert s.runners == [];
      StartMeans(seen);
    }
  }

  /** A cut-off task that fails makes way for the next height. */
  lemma CutOffGoesOn(s: State)
    requires OneTask(s) && !s.chainReorged && Enabled(s, Throw(0)) && s.current.None?
    requires s.queue == [] && s.prefetch > 0 && s.bestTip <= s.target
    ensures Processes(Step(s, Throw(0)), s.bestTip) && Step(s, Throw(0)).pending == s.pending
  {
    var freed := s.(taskInProgress := false, current := None, runners := Without(s.runners, 0));
    assert freed.runners == [];
    StartMeans(freed);
  }

  /** When the revert that a watchdog report asked for fails early, the cancelled task fails too and the node goes on with the
      next height to be queued. */
  lemma FailedWatchdogGoesOn(s: State, from: nat)
    requires OneTask(s) && Enabled(s, Detect(0, from)) && s.reverts == [] && s.prefetch > 0 && s.bestTip <= s.target
    ensures var s' := Next(Next(Next(Next(Next(s, Detect(0, from)), Stopped(0)), Stopped(0)), Sent(0, false)), Continue(0));
      Processes(s', s.bestTip) && s'.pending == s.pending
  {
    StopsTwice(s, from);
    FailsEarly(Next(Next(Next(s, Detect(0, from)), Stopped(0)), Stopped(0)), from);
  }

  lemma FailsEarly(s: State, from: nat)
    requires s.reverts == [Revert(Watchdog, from, Sending)] && s.chainReorged && s.current.None? && s.queue == []
    requires |s.runners| == 1 && s.runners[0].phase == InWatchdogRevert && s.prefetch > 0 && s.bestTip <= s.target
    ensures var s' := Next(Next(s, Sent(0, false)), Continue(0)); Processes(s', s.bestTip) && s'.pending == s.pending
  {
    var s1 := Next(s, Sent(0, false));
    assert |s1.runners| == 1 && s1.runners[0].phase == WatchdogReturned(false) && !s1.chainReorged;
    var freed := s1.(taskInProgress := false, current := None, runners := Without(s1.runners, 0));
    assert freed.runners == [] && Next(s1, Continue(0)) == StartTasks(freed);
    StartMeans(freed);
  }

  lemma StopsTwice(s: State, from: nat)
    requires OneTask(s) && Enabled(s, Detect(0, from)) && s.reverts == []
    ensures var s' := Next(Next(Next(s, Detect(0, from)), Stopped(0)), Stopped(0));
      && s'.reverts == [Revert(Watchdog, from, Sending)] && s'.chainReorged && s'.current.None? && s'.queue == []
      && |s'.runners| == 1 && s'.runners[0].phase == InWatchdogRevert
      && s'.pending == s.pending && s'.bestTip == s.bestTip && s'.target == s.target && s'.prefetch == s.prefetch
  {
  }

  /** The watchdog's verdict replaces a task's own flag, whatever a revert has made of that in the meantime; only an
      unflagged and uncancelled task completes. */
  lemma VerdictReplacesFlag(s: State, i: nat)
    requires i < |s.runners|
    ensures Enabled(s, NoReorg(i)) ==> var r := Step(s, NoReorg(i)).runners[i]; !r.task.flagged && r.phase == Finishing
    ensures s.runners[i].phase == WatchdogReturned(true) ==>
      var r := Step(s, Continue(i)).runners[i]; r.task.flagged && r.phase == Finishing
    ensures s.runners[i].phase == Finishing ==>
      (Enabled(s, Complete(i)) <==> !s.runners[i].task.flagged && !s.runners[i].task.aborted)
      && (Enabled(s, Return(i)) <==> !Enabled(s, Complete(i)))
  {
  }

  // ----- a cancelled task -----

  /** Whatever still runs or waits under this id is cancelled and short of its last check. */
  ghost predicate Dead(s: State, id: nat) {
    && id < s.nextId
    && (forall k :: 0 <= k < |s.queue| ==> s.queue[k].id != id)
    && (forall k :: 0 <= k < |s.runners| && s.runners[k].task.id == id ==> DeadRunner(s.runners[k]))
  }

  predicate DeadRunner(r: Runner) {
    r.task.aborted && r.phase != Completing && r.phase != Recording
  }

  lemma {:induction false} FillKeepsDead(s: State, n: nat, id: nat)
    requires Dead(s, id)
    ensures Dead(FillQueue(s, n), id)
    decreases n
  {
    if n > 0 && s.target >= s.bestTip {
      FillKeepsDead(NextTask(s), n - 1, id);
    }
  }

  lemma StartKeepsDead(s: State, id: nat)
    requires Dead(s, id)
    ensures Dead(StartTasks(s), id)
  {
    FillKeepsDead(s, Room(s), id);
  }

  lemma ReleaseKeepsDead(s: State, i: nat, restart: bool, id: nat)
    requires Dead(s, id) && i < |s.runners|
    ensures Dead(Release(s, i, restart), id)
  {
    StartKeepsDead(s.(taskInProgress := false, current := None, runners := Without(s.runners, i)), id);
  }

  lemma BeginKeepsDead(s: State, origin: Origin, from: nat, id: nat)
    requires Dead(s, id)
    ensures Dead(BeginRevert(s, origin, from), id)
  {
  }

  lemma FailedKeepsDead(s: State, i: nat, id: nat)
    requires Dead(s, id) && i < |s.runners|
    ensures Dead(Failed(s, i), id)
  {
    ReleaseKeepsDead(s, i, true, id);
    ReleaseKeepsDead(s, i, false, id);
    BeginKeepsDead(At(s, i, InErrorRevert), ProcessingError, s.pending, id);
  }

  lemma EventKeepsDead(s: State, e: Event, id: nat)
    requires Dead(s, id) && Enabled(s, e) && (e.BlockChange? || e.Resume?)
    ensures Dead(Step(s, e), id)
  {
    match e
    case BlockChange(h) =>
      StartKeepsDead(s.(target := h), id);
      BeginKeepsDead(s.(target := h), Regression, h, id);
    case Resume => StartKeepsDead(s.(resumes := s.resumes - 1), id);
  }

  lemma RevertKeepsDead(s: State, e: Event, id: nat)
    requires Dead(s, id) && Enabled(s, e) && (e.Stopped? || e.Sent? || e.Observed? || e.Notified?)
    ensures Dead(Step(s, e), id)
  {
    match e
    case Stopped(j) => StopKeepsDead(s, s.reverts[j].origin != ProcessingError, id);
    case Sent(j, ok) => EndKeepsDead(s, j, false, false, id);
    case Observed(j, ok, t) => EndKeepsDead(s, j, false, true, id);
    case Notified(j, ok) => EndKeepsDead(s, j, ok, !ok, id);
  }

  lemma StopKeepsDead(s: State, reorged: bool, id: nat)
    requires Dead(s, id)
    ensures Dead(StopAllTasks(s, reorged), id)
  {
  }

  lemma EndKeepsDead(s: State, j: nat, ok: bool, keepLock: bool, id: nat)
    requires Dead(s, id) && j < |s.reverts|
    ensures Dead(EndRevert(s, j, ok, keepLock), id)
  {
  }

  lemma RunnerKeepsDead(s: State, e: Event, id: nat)
    requires Dead(s, id) && Enabled(s, e) && (e.Verify? || e.NoReorg? || e.Complete? || e.Record? || e.Detect?)
    ensures Dead(Step(s, e), id)
  {
    match e
    case Verify(_) =>
    case NoReorg(_) =>
    case Complete(_) =>
    case Record(i) => FailedKeepsDead(s, i, id);
    case Detect(i, from) => BeginKeepsDead(At(s, i, InWatchdogRevert), Watchdog, from, id);
  }

  lemma ContinueKeepsDead(s: State, i: nat, id: nat)
    requires Dead(s, id) && Enabled(s, Continue(i))
    ensures Dead(Step(s, Continue(i)), id)
  {
    ReleaseKeepsDead(s, i, true, id);
    FailedKeepsDead(s, i, id);
  }

  lemma StepKeepsDead(s: State, e: Event, id: nat)
    requires Dead(s, id) && Enabled(s, e)
    ensures Dead(Step(s, e), id)
  {
    match e
    case Return(i) => ReleaseKeepsDead(s, i, true, id);
    case Finish(i) => ReleaseKeepsDead(s, i, true, id);
    case Throw(i) => FailedKeepsDead(s, i, id);
    case Continue(i) => ContinueKeepsDead(s, i, id);
    case BlockChange(_) => EventKeepsDead(s, e, id);
    case Resume => EventKeepsDead(s, e, id);
    case Stopped(_) => RevertKeepsDead(s, e, id);
    case Sent(_, _) => RevertKeepsDead(s, e, id);
    case Observed(_, _, _) => RevertKeepsDead(s, e, id);
    case Notified(_, _) => RevertKeepsDead(s, e, id);
    case _ => RunnerKeepsDead(s, e, id);
  }

  /** A task that was cancelled before its last check never records its height, whatever happens. */
  lemma CancelledNeverRecords(s: State, events: seq<Event>, n: nat, id: nat)
    requires n <= |events| && Dead(s, id)
    ensures var s' := After(s, events, n);
      forall k :: 0 <= k < |s'.runners| && s'.runners[k].task.id == id ==>
        s'.runners[k].task.aborted && !Enabled(s', Complete(k)) && !Enabled(s', Record(k)) && !Enabled(s', Finish(k))
  {
    DeadForGood(s, events, n, id);
  }

  lemma {:induction false} DeadForGood(s: State, events: seq<Event>, n: nat, id: nat)
    requires n <= |events| && Dead(s, id)
    ensures Dead(After(s, events, n), id)
  {
    if n > 0 {
      DeadForGood(s, events, n - 1, id);
      var before := After(s, events, n - 1);
      if Enabled(before, events[n - 1]) {
        StepKeepsDead(before, events[n - 1], id);
      }
    }
  }

  /** A regression and a watchdog report cancel the current task at once. */
  lemma RevertCancels(s: State, origin: Origin, from: nat)
    requires OneTask(s) && s.current.Some?
    requires s.current.value < s.nextId && forall k :: 0 <= k < |s.queue| ==> s.queue[k].id != s.current.value
    requires s.runners[0].phase != Completing && s.runners[0].phase != Recording
    ensures Dead(BeginRevert(s, origin, from), s.current.value)
    ensures BeginRevert(s, origin, from).runners[0].task.flagged == (origin != ProcessingError)
  {
  }
}
