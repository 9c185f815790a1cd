/** The object behind the protocol: the fields and methods of `BlockIndexer`, whose synchronous pieces are the
    steps of `Indexer`. */
module BlockIndexer {
  import opened Common
  import opened Indexer
  import opened Heights

  class Processor {
    const prefetchQueueSize: nat

    var started: bool
    var chainReorged: bool
    var taskInProgress: bool
    var currentTask: Option<nat>
    var indexingTasks: seq<Task>

    // ChainObserver
    var bestTip: nat
    var targetBlockHeight: nat
    var pendingBlockHeight: nat
    var nextTaskId: nat

    // suspended asynchronous calls
    var runners: seq<Runner>
    var reverts: seq<Revert>
    var resumes: nat
    var poisoned: bool

    function Snapshot(): State
      reads this
    {
      State(prefetchQueueSize, started, chainReorged, taskInProgress, currentTask, indexingTasks, runners, reverts,
            poisoned, resumes, nextTaskId, bestTip, targetBlockHeight, pendingBlockHeight)
    }

    constructor (prefetch: nat, height: nat, target: nat)
      ensures Snapshot() == Init(prefetch, height, target)
    {
      prefetchQueueSize := prefetch;
      started, chainReorged, taskInProgress, poisoned := false, false, false, false;
      currentTask, indexingTasks, runners, reverts := None, [], [], [];
      bestTip, targetBlockHeight, pendingBlockHeight := height, target, height;
      nextTaskId, resumes := 0, 0;
    }

    method StartTasks()
      modifies this
      ensures Snapshot() == Indexer.StartTasks(old(Snapshot()))
    {
      if chainReorged {
        return;
      }
      var currentIndexingLength := if prefetchQueueSize > |indexingTasks| then prefetchQueueSize - |indexingTasks| else 0;
      var i := 0;
      while i < currentIndexingLength && targetBlockHeight >= bestTip
        invariant i <= currentIndexingLength && !chainReorged
        invariant FillQueue(Snapshot(), currentIndexingLength - i) == FillQueue(old(Snapshot()), currentIndexingLength)
      {
        indexingTasks := indexingTasks + [Task(nextTaskId, bestTip, false, false)];
        bestTip, nextTaskId := bestTip + 1, nextTaskId + 1;
        i := i + 1;
      }
      ProcessNextTask();
    }

    /** Up to `await currentTask.process(...)`. */
    method ProcessNextTask()
      modifies this
      ensures Snapshot() == Indexer.ProcessNextTask(old(Snapshot()))
    {
      if taskInProgress || |indexingTasks| == 0 {
        return;
      }
      taskInProgress := true;
      var task := indexingTasks[0];
      currentTask, indexingTasks := Some(task.id), indexingTasks[1..];
      runners := runners + [Runner(task, Preparing)];
    }

    method ReleaseLockAndCallNextTask(i: nat, mayRestartTask: bool)
      requires i < |runners|
      modifies this
      ensures Snapshot() == Release(old(Snapshot()), i, mayRestartTask)
    {
      taskInProgress, currentTask := false, None;
      runners := runners[..i] + runners[i + 1..];
      if mayRestartTask && !chainReorged {
        StartTasks();
      }
    }

    method CancelCurrentTask(reorged: bool)
      modifies this`runners
      ensures Snapshot() == CancelCurrent(old(Snapshot()), reorged)
    {
      for i := 0 to |runners|
        invariant |runners| == |old(runners)|
        invariant forall k :: 0 <= k < i ==> runners[k] == Cancelled(old(runners)[k], currentTask, reorged)
        invariant forall k :: i <= k < |runners| ==> runners[k] == old(runners)[k]
      {
        if currentTask == Some(runners[i].task.id) {
          var task := runners[i].task.(flagged := reorged, aborted := true);
          runners := runners[i := runners[i].(task := task)];
        }
      }
      assert runners == CancelCurrent(old(Snapshot()), reorged).runners;
    }

    /** Up to the first `await`. */
    method RevertChain(origin: Origin, from: nat)
      modifies this
      ensures Snapshot() == BeginRevert(old(Snapshot()), origin, from)
    {
      chainReorged := true;
      CancelCurrentTask(origin != ProcessingError);
      reverts := reverts + [Revert(origin, from, Stopping)];
    }

    method OnBlockChange(height: nat)
      modifies this
      ensures Snapshot() == Step(old(Snapshot()), BlockChange(height))
    {
      targetBlockHeight := height;
      if started && !chainReorged && height > 0 && height <= pendingBlockHeight {
        RevertChain(Regression, height);
      } else if !started {
        StartTasks();
        started := true;
      } else if !(taskInProgress && |indexingTasks| != 0) {
        StartTasks();
      }
    }

    /** The `catch` and `finally` of `processNextTask`. */
    method OnProcessingError(i: nat)
      requires i < |runners|
      modifies this
      ensures Snapshot() == Failed(old(Snapshot()), i)
    {
      var flagged := exists r :: r in runners && currentTask == Some(r.task.id) && r.task.flagged;
      if chainReorged || currentTask.None? || flagged {
        ReleaseLockAndCallNextTask(i, true);
      } else if pendingBlockHeight > 1 {
        runners := runners[i := runners[i].(phase := InErrorRevert)];
        RevertChain(ProcessingError, pendingBlockHeight);
      } else {
        ReleaseLockAndCallNextTask(i, false);
      }
    }

    /** The rest of `revertChain` after its lock-protected part ended, one way or the other. */
    method LeaveRevert(j: nat, ok: bool, storageModified: bool)
      requires j < |reverts|
      modifies this
      ensures Snapshot() == EndRevert(old(Snapshot()), j, ok, !ok && storageModified)
    {
      var r := reverts[j];
      if ok || !storageModified {
        chainReorged := false;
      } else {
        poisoned := true;
      }
      reverts := reverts[..j] + reverts[j + 1..];
      if r.origin == Regression && ok {
        resumes := resumes + 1;
      }
      runners := seq(|runners|, i requires 0 <= i < |runners| reads this => Woken(runners[i], r.origin, ok));
    }

    /** One step of a suspended task. */
    method AdvanceRunner(e: Event)
      requires Enabled(Snapshot(), e)
      requires e.Verify? || e.NoReorg? || e.Detect? || e.Complete? || e.Record? || e.Finish? || e.Return? || e.Throw? || e.Continue?
      modifies this
      ensures Snapshot() == Step(old(Snapshot()), e)
    {
      var r := runners[e.i];
      match e {
        case Verify(i) => runners := runners[i := r.(phase := if r.task.flagged then Finishing else Verifying)];
        case NoReorg(i) => runners := runners[i := Runner(r.task.(flagged := false), Finishing)];
        case Detect(i, from) =>
          runners := runners[i := r.(phase := InWatchdogRevert)];
          RevertChain(Watchdog, from);
        case Complete(i) => runners := runners[i := r.(phase := Completing)];
        case Return(i) => ReleaseLockAndCallNextTask(i, true);
        case Throw(i) => OnProcessingError(i);
        case Record(i) =>
          if !taskInProgress {
            OnProcessingError(i);
          } else {
            pendingBlockHeight := r.task.tip;
            runners := runners[i := r.(phase := Recording)];
          }
        case Finish(i) => ReleaseLockAndCallNextTask(i, true);
        case Continue(i) =>
          if r.phase == ErrorReturned {
            ReleaseLockAndCallNextTask(i, true);
          } else if r.phase.ok {
            runners := runners[i := Runner(r.task.(flagged := true), Finishing)];
          } else {
            OnProcessingError(i);
          }
      }
    }

    method StopAllTasks(reorged: bool)
      modifies this
      ensures Snapshot() == Indexer.StopAllTasks(old(Snapshot()), reorged)
    {
      CancelCurrentTask(reorged);
      currentTask, indexingTasks := None, [];
    }

    /** One step of a suspended revert. */
    method AdvanceRevert(e: Event)
      requires Enabled(Snapshot(), e)
      requires e.Stopped? || e.Sent? || e.Observed? || e.Notified?
      modifies this
      ensures Snapshot() == Step(old(Snapshot()), e)
    {
      match e {
        case Stopped(j) => ContinueStopping(j);
        case Sent(j, ok) =>
          if ok {
            EnterPhase(j, Modified);
          } else {
            LeaveRevert(j, false, false);
          }
        case Observed(j, ok, t) =>
          if ok {
            pendingBlockHeight, bestTip, targetBlockHeight := reverts[j].from, reverts[j].from, t;
            EnterPhase(j, Notifying);
          } else {
            LeaveRevert(j, false, true);
          }
        case Notified(j, ok) => LeaveRevert(j, ok, true);
      }
    }

    method ContinueStopping(j: nat)
      requires j < |reverts|
      modifies this
      ensures var r := old(reverts)[j];
        Snapshot() == RevertAt(Indexer.StopAllTasks(old(Snapshot()), r.origin != ProcessingError), j,
                               if r.phase == Stopping then StoppingAgain else Sending)
    {
      var phase := if reverts[j].phase == Stopping then StoppingAgain else Sending;
      StopAllTasks(reverts[j].origin != ProcessingError);
      EnterPhase(j, phase);
    }

    method EnterPhase(j: nat, phase: RevertPhase)
      requires j < |reverts|
      modifies this`reverts
      ensures Snapshot() == RevertAt(old(Snapshot()), j, phase)
    {
      reverts := reverts[j := reverts[j].(phase := phase)];
    }

    /** `taskInProgress` is set exactly while one task is in process, `currentTask` is that task or nothing, and the
        queue fits the prefetch size. */
    ghost predicate Valid()
      reads this
    {
      OneTask(Snapshot())
    }

    /** Besides, the lock is held exactly while one revert is in flight or after one failed halfway, and from the end of
        its first stop on there is no current task and no queue; queued tasks are for consecutive heights. */
    ghost predicate LockIsRight()
      reads this
    {
      Locked(Snapshot())
    }

    /** One step of anything.  Under the lock no task starts and the queue does not grow; only a watchdog report
        during a lock can spoil the lock. */
    method Perform(e: Event)
      requires Valid() && Enabled(Snapshot(), e)
      modifies this
      ensures Valid() && Snapshot() == Step(old(Snapshot()), e)
      ensures old(chainReorged) ==> NothingStarted(old(Snapshot()), Snapshot())
      ensures old(chainReorged) ==> indexingTasks == old(indexingTasks) || indexingTasks == []
      ensures old(LockIsRight()) && !(e.Detect? && old(chainReorged)) ==> LockIsRight()
    {
      ghost var before := Snapshot();
      match e {
        case BlockChange(h) => OnBlockChange(h);
        case Resume =>
          resumes := resumes - 1;
          StartTasks();
        case Stopped(_) => AdvanceRevert(e);
        case Sent(_, _) => AdvanceRevert(e);
        case Observed(_, _, _) => AdvanceRevert(e);
        case Notified(_, _) => AdvanceRevert(e);
        case _ => AdvanceRunner(e);
      }
      StepFacts(before, e);
    }
  }

  lemma StepFacts(s: State, e: Event)
    requires OneTask(s) && Enabled(s, e)
    ensures OneTask(Step(s, e))
    ensures s.chainReorged ==> NothingStarted(s, Step(s, e)) && (Step(s, e).queue == s.queue || Step(s, e).queue == [])
    ensures Locked(s) && !(e.Detect? && s.chainReorged) ==> Locked(Step(s, e))
  {
    StepKeepsOneTask(s, e);
    if s.chainReorged {
      LockStopsTasks(s, e);
    }
    if Locked(s) && !(e.Detect? && s.chainReorged) {
      StepKeepsLocked(s, e);
    }
  }

  /** The object through any sequence of events.  In every state it passes through one task is in process exactly while
      the flag says so; from a locked state no step starts a task or adds to the queue; while no watchdog report comes
      during a lock, reverts exclude each other, the lock is right, and the next block is always the recorded one or the
      one above it if and only if no event slips, as none does in a calm run. */
  method Drive(prefetch: nat, height: nat, target: nat, events: seq<Event>) returns (trace: seq<State>)
    ensures |trace| == |events| + 1 && trace[0] == Init(prefetch, height, target) && IsTrace(trace, trace[0], events)
    ensures forall k :: 0 <= k <= |events| ==> OneTask(trace[k]) && |trace[k].queue| <= prefetch
    ensures forall k :: 0 <= k < |events| && trace[k].chainReorged ==> WorkStands(trace[k], trace[k + 1])
    ensures NeverIntrudes(trace[0], events, |events|) ==> forall k :: 0 <= k <= |events| ==> Locked(trace[k])
    ensures NeverIntrudes(trace[0], events, |events|) ==>
      ((forall k :: 0 <= k <= |events| ==> InPlace(trace[k])) <==> NeverSlips(trace[0], events, |events|))
    ensures Calm(trace[0], events, |events|) ==> forall k :: 0 <= k <= |events| ==> InPlace(trace[k])
  {
    var p := new Processor(prefetch, height, target);
    ghost var s0 := p.Snapshot();
    trace := [p.Snapshot()];
    for n := 0 to |events|
      invariant fresh(p) && p.Valid() && p.prefetchQueueSize == prefetch
      invariant |trace| == n + 1 && trace[n] == p.Snapshot() && IsTrace(trace, s0, events)
      invariant forall k :: 0 <= k <= n ==> OneTask(trace[k]) && trace[k].prefetch == prefetch
      invariant forall k :: 0 <= k < n && trace[k].chainReorged ==> WorkStands(trace[k], trace[k + 1])
    {
      Unchanged(p.Snapshot());
      if Enabled(p.Snapshot(), events[n]) {
        p.Perform(events[n]);
      }
      trace := trace + [p.Snapshot()];
    }
    TraceFacts(trace, s0, events);
  }

  ghost predicate WorkStands(s: State, s': State) {
    NothingStarted(s, s') && (s'.queue == s.queue || s'.queue == [])
  }

  lemma Unchanged(s: State)
    ensures WorkStands(s, s)
  {
  }

  ghost predicate IsTrace(trace: seq<State>, s: State, events: seq<Event>) {
    && |trace| <= |events| + 1
    && forall k :: 0 <= k < |trace| ==> trace[k] == After(s, events, k)
  }

  lemma TraceFacts(trace: seq<State>, s: State, events: seq<Event>)
    requires IsTrace(trace, s, events) && |trace| == |events| + 1 && Steady(s)
    ensures NeverIntrudes(s, events, |events|) ==> forall k :: 0 <= k <= |events| ==> Locked(trace[k])
    ensures NeverIntrudes(s, events, |events|) ==>
      ((forall k :: 0 <= k <= |events| ==> InPlace(trace[k])) <==> NeverSlips(s, events, |events|))
    ensures Calm(s, events, |events|) ==> forall k :: 0 <= k <= |events| ==> InPlace(trace[k])
  {
    AlwaysOnTrace(trace, s, events, |events|);
    if NeverIntrudes(s, events, |events|) {
      InOrderExactlyWhen(s, events, |events|);
      forall k | 0 <= k <= |events| ensures Locked(trace[k]) {
        QuietRunIsLocked(s, events, k);
      }
    }
    if Calm(s, events, |events|) {
      CalmIsInPlace(s, events, |events|);
    }
  }

  lemma {:induction false} AlwaysOnTrace(trace: seq<State>, s: State, events: seq<Event>, n: nat)
    requires IsTrace(trace, s, events) && n < |trace| && n <= |events|
    ensures AlwaysInPlace(s, events, n) <==> forall k :: 0 <= k <= n ==> InPlace(trace[k])
  {
    assert trace[n] == After(s, events, n);
    if n > 0 {
      AlwaysOnTrace(trace, s, events, n - 1);
    }
  }

  lemma {:induction false} CalmIsInPlace(s: State, events: seq<Event>, n: nat)
    requires n <= |events| && Steady(s) && Calm(s, events, n)
    ensures AlwaysInPlace(s, events, n)
  {
    CalmRunIsSteady(s, events, n);
    if n > 0 {
      CalmIsInPlace(s, events, n - 1);
    }
  }
}
