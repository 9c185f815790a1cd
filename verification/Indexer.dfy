/** `BlockIndexer`: the task and reorganisation protocol, as the atomic steps between `await`s.  The
    environment (block events, the chain watchdog, storage and other threads) chooses the next step.

    At most one task is in process, in every run.  Reverts exclude each other if and only if no watchdog report comes
    while the lock is held; that such a report needs a regression during a verification is proved at the end, together
    with the shortest run in which two reverts overlap. */
module Indexer {
  import opened Common

  /** `flagged` is the task's own `chainReorged`. */
  datatype Task = Task(id: nat, tip: nat, flagged: bool, aborted: bool)

  /** Where one `processNextTask` call is waiting. */
  datatype RunnerPhase =
    | Preparing            // prefetch and block execution
    | Verifying            // `verifyReorg` asked the watchdog
    | InWatchdogRevert     // the watchdog called the reorg listener
    | WatchdogReturned(ok: bool)
    | Finishing            // finalising the block
    | Completing           // `onCompletedTask` passed its first check
    | Recording            // it has set the new height and waits for the database
    | InErrorRevert        // the `catch` block reverts one block
    | ErrorReturned

  datatype Runner = Runner(task: Task, phase: RunnerPhase)

  datatype Origin = Regression | Watchdog | ProcessingError

  /** Where one `revertChain` call is waiting. */
  datatype RevertPhase = Stopping | StoppingAgain | Sending | Modified | Notifying

  datatype Revert = Revert(origin: Origin, from: nat, phase: RevertPhase)

  datatype State = State(
    prefetch: nat,
    started: bool, chainReorged: bool, taskInProgress: bool,
    current: Option<nat>, queue: seq<Task>,
    runners: seq<Runner>, reverts: seq<Revert>,
    poisoned: bool,        // a revert failed after it modified storage
    resumes: nat,          // finished regressions that will still call `startTasks`
    nextId: nat, bestTip: nat, target: nat, pending: nat)

  datatype Event =
    | BlockChange(height: nat)
    | Verify(i: nat) | NoReorg(i: nat) | Detect(i: nat, from: nat)
    | Complete(i: nat) | Record(i: nat) | Finish(i: nat) | Return(i: nat) | Throw(i: nat) | Continue(i: nat)
    | Stopped(j: nat) | Sent(j: nat, ok: bool) | Observed(j: nat, ok: bool, target: nat) | Notified(j: nat, ok: bool)
    | Resume

  function Init(prefetch: nat, height: nat, target: nat): State {
    State(prefetch, false, false, false, None, [], [], [], false, 0, 0, height, target, height)
  }

  // ----- synchronous pieces -----

  function NextTask(s: State): State {
    s.(queue := s.queue + [Task(s.nextId, s.bestTip, false, false)], bestTip := s.bestTip + 1, nextId := s.nextId + 1)
  }

  function FillQueue(s: State, n: nat): State
    decreases n
  {
    if n == 0 || s.target < s.bestTip then s else FillQueue(NextTask(s), n - 1)
  }

  function Room(s: State): nat {
    if s.prefetch > |s.queue| then s.prefetch - |s.queue| else 0
  }

  function ProcessNextTask(s: State): State {
    if s.taskInProgress || s.queue == [] then s
    else s.(taskInProgress := true, current := Some(s.queue[0].id), queue := s.queue[1..],
            runners := s.runners + [Runner(s.queue[0], Preparing)])
  }

  function StartTasks(s: State): State {
    if s.chainReorged then s else ProcessNextTask(FillQueue(s, Room(s)))
  }

  function Without<T>(s: seq<T>, i: nat): seq<T>
    requires i < |s|
  {
    s[..i] + s[i + 1..]
  }

  function Release(s: State, i: nat, mayRestart: bool): State
    requires i < |s.runners|
  {
    var freed := s.(taskInProgress := false, current := None, runners := Without(s.runners, i));
    if mayRestart then StartTasks(freed) else freed
  }

  function At(s: State, i: nat, phase: RunnerPhase): State
    requires i < |s.runners|
  {
    s.(runners := s.runners[i := s.runners[i].(phase := phase)])
  }

  /** `this.chainReorged = await this.verifyReorg()`: the verdict replaces the task's flag. */
  function Flag(r: Runner, verdict: bool): Runner {
    r.(task := r.task.(flagged := verdict))
  }

  function Cancelled(r: Runner, id: Option<nat>, reorged: bool): Runner {
    if id == Some(r.task.id) then r.(task := r.task.(flagged := reorged, aborted := true)) else r
  }

  /** `currentTask.cancel(reorged)` marks the running task at once. */
  function CancelCurrent(s: State, reorged: bool): State {
    s.(runners := seq(|s.runners|, i requires 0 <= i < |s.runners| => Cancelled(s.runners[i], s.current, reorged)))
  }

  /** `revertChain` up to its first `await`: the lock is taken and the running task cancelled. */
  function BeginRevert(s: State, origin: Origin, from: nat): State {
    CancelCurrent(s, origin != ProcessingError).(chainReorged := true, reverts := s.reverts + [Revert(origin, from, Stopping)])
  }

  function StopAllTasks(s: State, reorged: bool): State {
    CancelCurrent(s, reorged).(current := None, queue := [])
  }

  function RevertAt(s: State, j: nat, phase: RevertPhase): State
    requires j < |s.reverts|
  {
    s.(reverts := s.reverts[j := s.reverts[j].(phase := phase)])
  }

  function Woken(r: Runner, origin: Origin, ok: bool): Runner {
    if origin == Watchdog && r.phase == InWatchdogRevert then r.(phase := WatchdogReturned(ok))
    else if origin == ProcessingError && r.phase == InErrorRevert then r.(phase := ErrorReturned)
    else r
  }

  /** The end of `revertChain`: the lock is released unless storage was modified and a later step failed. */
  function EndRevert(s: State, j: nat, ok: bool, keepLock: bool): State
    requires j < |s.reverts|
  {
    var r := s.reverts[j];
    s.(chainReorged := keepLock && s.chainReorged, poisoned := s.poisoned || keepLock,
       reverts := Without(s.reverts, j),
       resumes := if r.origin == Regression && ok then s.resumes + 1 else s.resumes,
       runners := seq(|s.runners|, i requires 0 <= i < |s.runners| => Woken(s.runners[i], r.origin, ok)))
  }

  predicate CurrentFlagged(s: State) {
    exists r :: r in s.runners && s.current == Some(r.task.id) && r.task.flagged
  }

  /** The `catch` of `processNextTask`. */
  function Failed(s: State, i: nat): State
    requires i < |s.runners|
  {
    if s.chainReorged || s.current.None? || CurrentFlagged(s) then Release(s, i, true)
    else if s.pending > 1 then BeginRevert(At(s, i, InErrorRevert), ProcessingError, s.pending)
    else Release(s, i, false)
  }

  /** A block event at or below the processed height means that block was replaced. */
  predicate IsRegression(s: State, height: nat) {
    s.started && !s.chainReorged && 0 < height <= s.pending
  }

  // ----- the step relation -----

  predicate RunnerIn(s: State, i: nat, phases: set<RunnerPhase>) {
    i < |s.runners| && s.runners[i].phase in phases
  }

  predicate RevertIn(s: State, j: nat, phases: set<RevertPhase>) {
    j < |s.reverts| && s.reverts[j].phase in phases
  }

  predicate Enabled(s: State, e: Event) {
    match e
    case BlockChange(_) => true
    case Verify(i) => RunnerIn(s, i, {Preparing})
    case NoReorg(i) => RunnerIn(s, i, {Verifying})
    case Detect(i, _) => RunnerIn(s, i, {Verifying})
    case Complete(i) => RunnerIn(s, i, {Finishing}) && !s.runners[i].task.flagged && !s.runners[i].task.aborted
    case Return(i) => RunnerIn(s, i, {Finishing}) && (s.runners[i].task.flagged || s.runners[i].task.aborted)
    case Record(i) => RunnerIn(s, i, {Completing})
    case Finish(i) => RunnerIn(s, i, {Recording})
    case Throw(i) => RunnerIn(s, i, {Preparing, Verifying, Finishing, Completing, Recording})
    case Continue(i) => RunnerIn(s, i, {WatchdogReturned(true), WatchdogReturned(false), ErrorReturned})
    case Stopped(j) => RevertIn(s, j, {Stopping, StoppingAgain})
    case Sent(j, _) => RevertIn(s, j, {Sending})
    case Observed(j, _, _) => RevertIn(s, j, {Modified})
    case Notified(j, _) => RevertIn(s, j, {Notifying})
    case Resume => s.resumes > 0
  }

  function Step(s: State, e: Event): State
    requires Enabled(s, e)
  {
    match e
    case BlockChange(h) =>
      var seen := s.(target := h);
      if IsRegression(s, h) then BeginRevert(seen, Regression, h)
      else if !s.started then StartTasks(seen).(started := true)
      else if s.taskInProgress && s.queue != [] then seen
      else StartTasks(seen)
    case Verify(i) => At(s, i, if s.runners[i].task.flagged then Finishing else Verifying)
    case NoReorg(i) => At(s.(runners := s.runners[i := Flag(s.runners[i], false)]), i, Finishing)
    case Detect(i, from) => BeginRevert(At(s, i, InWatchdogRevert), Watchdog, from)
    case Complete(i) => At(s, i, Completing)
    case Return(i) => Release(s, i, true)
    case Record(i) =>
      if !s.taskInProgress then Failed(s, i)   // "Two tasks are running at the same time."
      else At(s.(pending := s.runners[i].task.tip), i, Recording)
    case Finish(i) => Release(s, i, true)
    case Throw(i) => Failed(s, i)
    case Continue(i) =>
      var r := s.runners[i];
      if r.phase == ErrorReturned then Release(s, i, true)
      else if r.phase == WatchdogReturned(true) then
        At(s.(runners := s.runners[i := Flag(r, true)]), i, Finishing)
      else Failed(s, i)
    case Stopped(j) =>
      var r := s.reverts[j];
      RevertAt(StopAllTasks(s, r.origin != ProcessingError), j, if r.phase == Stopping then StoppingAgain else Sending)
    case Sent(j, ok) => if ok then RevertAt(s, j, Modified) else EndRevert(s, j, false, false)
    case Observed(j, ok, t) =>
      if ok then RevertAt(s, j, Notifying).(pending := s.reverts[j].from, bestTip := s.reverts[j].from, target := t)
      else EndRevert(s, j, false, true)
    case Notified(j, ok) => EndRevert(s, j, ok, !ok)
    case Resume => StartTasks(s.(resumes := s.resumes - 1))
  }

  /** The state after the first `n` events.  A run is any sequence of events; one that is not enabled when its turn
      comes does not happen. */
  function After(s: State, events: seq<Event>, n: nat): State
    requires n <= |events|
  {
    if n == 0 then s else Next(After(s, events, n - 1), events[n - 1])
  }

  function Next(s: State, e: Event): State {
    if Enabled(s, e) then Step(s, e) else s
  }

  // ----- one task at a time, in every run -----

  /** `taskInProgress` is true exactly while one task is in `process`, `currentTask` is that task or nothing,
      and the queue fits the prefetch size. */
  ghost predicate OneTask(s: State) {
    && |s.runners| == (if s.taskInProgress then 1 else 0)
    && (s.current.Some? ==> s.taskInProgress && s.current == Some(s.runners[0].task.id))
    && |s.queue| <= s.prefetch
  }

  lemma {:induction false} FillKeeps(s: State, n: nat)
    requires n <= Room(s)
    ensures var f := FillQueue(s, n);
      f == s.(queue := f.queue, bestTip := f.bestTip, nextId := f.nextId) && |f.queue| <= |s.queue| + n
    decreases n
  {
    if n > 0 && s.target >= s.bestTip {
      FillKeeps(NextTask(s), n - 1);
    }
  }

  lemma StartKeepsOneTask(s: State)
    requires OneTask(s)
    ensures OneTask(StartTasks(s))
  {
    FillKeeps(s, Room(s));
  }

  lemma StepKeepsOneTask(s: State, e: Event)
    requires OneTask(s) && Enabled(s, e)
    ensures OneTask(Step(s, e))
  {
    if e.BlockChange? || e.Resume? {
      EventKeepsOneTask(s, e);
    } else if !(e.Stopped? || e.Sent? || e.Observed? || e.Notified?) {
      RunnerKeepsOneTask(s, e);
    }
  }

  lemma EventKeepsOneTask(s: State, e: Event)
    requires OneTask(s) && Enabled(s, e) && (e.BlockChange? || e.Resume?)
    ensures OneTask(Step(s, e))
  {
    match e
    case BlockChange(h) =>
      StartKeepsOneTask(s.(target := h));
      if IsRegression(s, h) {
        BeginKeepsOneTask(s.(target := h), Regression, h);
      }
    case Resume => StartKeepsOneTask(s.(resumes := s.resumes - 1));
  }

  lemma BeginKeepsOneTask(s: State, origin: Origin, from: nat)
    requires OneTask(s)
    ensures OneTask(BeginRevert(s, origin, from))
  {
  }

  lemma RunnerKeepsOneTask(s: State, e: Event)
    requires OneTask(s) && Enabled(s, e)
    requires !e.BlockChange? && !e.Resume? && !e.Stopped? && !e.Sent? && !e.Observed? && !e.Notified?
    ensures OneTask(Step(s, e))
  {
    match e
    case Return(i) => ReleaseKeepsOneTask(s, i);
    case Finish(i) => ReleaseKeepsOneTask(s, i);
    case Record(_) =>
    case Throw(i) => FailedKeepsOneTask(s, i);
    case Continue(i) =>
      ReleaseKeepsOneTask(s, i);
      FailedKeepsOneTask(s, i);
    case Detect(i, from) => BeginKeepsOneTask(At(s, i, InWatchdogRevert), Watchdog, from);
    case Verify(_) =>
    case NoReorg(_) =>
    case Complete(_) =>
  }

  lemma FailedKeepsOneTask(s: State, i: nat)
    requires OneTask(s) && i < |s.runners|
    ensures OneTask(Failed(s, i))
  {
    ReleaseKeepsOneTask(s, i);
    BeginKeepsOneTask(At(s, i, InErrorRevert), ProcessingError, s.pending);
  }

  lemma ReleaseKeepsOneTask(s: State, i: nat)
    requires OneTask(s) && i < |s.runners|
    ensures OneTask(Release(s, i, true)) && OneTask(Release(s, i, false))
  {
    StartKeepsOneTask(s.(taskInProgress := false, current := None, runners := Without(s.runners, i)));
  }

  /** In every run at most one task is processed at a time, and a completing task always finds
      `taskInProgress` set, so the error for two running tasks is never thrown. */
  lemma {:induction false} OneTaskAlways(prefetch: nat, height: nat, target: nat, events: seq<Event>, n: nat)
    requires n <= |events|
    ensures var s := After(Init(prefetch, height, target), events, n);
      OneTask(s) && forall i :: Enabled(s, Record(i)) ==> s.taskInProgress
  {
    if n > 0 {
      OneTaskAlways(prefetch, height, target, events, n - 1);
      NextKeepsOneTask(After(Init(prefetch, height, target), events, n - 1), events[n - 1]);
    }
  }

  lemma NextKeepsOneTask(s: State, e: Event)
    requires OneTask(s)
    ensures OneTask(Next(s, e))
  {
    if Enabled(s, e) {
      StepKeepsOneTask(s, e);
    }
  }

  // ----- one revert at a time -----

  /** At most one revert is in flight, and none once a failed revert has locked the node. */
  ghost predicate Safe(s: State) {
    |s.reverts| <= 1 && (s.poisoned ==> s.reverts == [])
  }

  /** The queued tasks are for consecutive heights that end right below `bestTip`. */
  ghost predicate Ordered(s: State) {
    |s.queue| <= s.bestTip && forall i :: 0 <= i < |s.queue| ==> s.queue[i].tip == s.bestTip - |s.queue| + i
  }

  /** What the protocol keeps as long as the watchdog reports nothing while the node is locked: the lock is held
      exactly while a revert is in flight or after one failed halfway, and from the end of the first
      `stopAllTasks` there is no current task and nothing in the queue. */
  ghost predicate Locked(s: State) {
    && OneTask(s) && Safe(s) && Ordered(s)
    && (s.chainReorged <==> s.reverts != [] || s.poisoned)
    && ((s.reverts != [] && s.reverts[0].phase != Stopping) || s.poisoned ==> s.queue == [] && s.current.None?)
  }

  /** The one unguarded entry into `revertChain`: a watchdog report during another revert or after a lock-out. */
  ghost predicate Intrudes(s: State, e: Event) {
    e.Detect? && Enabled(s, e) && s.chainReorged
  }

  lemma {:induction false} FillOrders(s: State, n: nat)
    requires Ordered(s)
    ensures Ordered(FillQueue(s, n))
    decreases n
  {
    if n > 0 && s.target >= s.bestTip {
      FillOrders(NextTask(s), n - 1);
    }
  }

  lemma StartKeepsLocked(s: State)
    requires Locked(s)
    ensures Locked(StartTasks(s))
  {
    StartKeepsOneTask(s);
    FillKeeps(s, Room(s));
    FillOrders(s, Room(s));
  }

  lemma ReleaseKeepsLocked(s: State, i: nat)
    requires Locked(s) && i < |s.runners|
    ensures Locked(Release(s, i, true)) && Locked(Release(s, i, false))
  {
    var freed := s.(taskInProgress := false, current := None, runners := Without(s.runners, i));
    assert Locked(freed);
    StartKeepsLocked(freed);
  }

  lemma BeginKeepsLocked(s: State, origin: Origin, from: nat)
    requires Locked(s) && !s.chainReorged
    ensures Locked(BeginRevert(s, origin, from))
  {
  }

  lemma FailedKeepsLocked(s: State, i: nat)
    requires Locked(s) && i < |s.runners|
    ensures Locked(Failed(s, i))
  {
    ReleaseKeepsLocked(s, i);
    if !s.chainReorged {
      BeginKeepsLocked(At(s, i, InErrorRevert), ProcessingError, s.pending);
    }
  }

  lemma EndKeepsLocked(s: State, j: nat, ok: bool, keepLock: bool)
    requires Locked(s) && j < |s.reverts| && s.reverts[j].phase != Stopping
    ensures Locked(EndRevert(s, j, ok, keepLock))
  {
    assert Without(s.reverts, j) == [];
  }

  lemma RevertKeepsLocked(s: State, e: Event)
    requires Locked(s) && Enabled(s, e) && (e.Stopped? || e.Sent? || e.Observed? || e.Notified?)
    ensures Locked(Step(s, e))
  {
    match e
    case Stopped(j) =>
    case Sent(j, ok) => EndKeepsLocked(s, j, false, false);
    case Observed(j, ok, _) => EndKeepsLocked(s, j, false, true);
    case Notified(j, ok) => EndKeepsLocked(s, j, ok, !ok);
  }

  lemma EventKeepsLocked(s: State, e: Event)
    requires Locked(s) && Enabled(s, e) && (e.BlockChange? || e.Resume?)
    ensures Locked(Step(s, e))
  {
    match e
    case BlockChange(h) =>
      StartKeepsLocked(s.(target := h));
      if IsRegression(s, h) {
        BeginKeepsLocked(s.(target := h), Regression, h);
      }
    case Resume => StartKeepsLocked(s.(resumes := s.resumes - 1));
  }

  lemma StepKeepsLocked(s: State, e: Event)
    requires Locked(s) && Enabled(s, e) && !Intrudes(s, e)
    ensures Locked(Step(s, e))
  {
    match e
    case BlockChange(_) => EventKeepsLocked(s, e);
    case Resume => EventKeepsLocked(s, e);
    case Return(i) => ReleaseKeepsLocked(s, i);
    case Finish(i) => ReleaseKeepsLocked(s, i);
    case Record(_) =>
    case Throw(i) => FailedKeepsLocked(s, i);
    case Continue(i) =>
      ReleaseKeepsLocked(s, i);
      FailedKeepsLocked(s, i);
    case Detect(i, from) => BeginKeepsLocked(At(s, i, InWatchdogRevert), Watchdog, from);
    case Verify(_) =>
    case NoReorg(_) =>
    case Complete(_) =>
    case _ => RevertKeepsLocked(s, e);
  }

  ghost predicate NeverIntrudes(s: State, events: seq<Event>, n: nat)
    requires n <= |events|
  {
    forall k :: 0 <= k < n ==> !Intrudes(After(s, events, k), events[k])
  }

  lemma {:induction false} QuietRunIsLocked(s: State, events: seq<Event>, n: nat)
    requires n <= |events| && Locked(s) && NeverIntrudes(s, events, n)
    ensures Locked(After(s, events, n))
  {
    if n > 0 {
      QuietRunIsLocked(s, events, n - 1);
      NextKeepsLocked(After(s, events, n - 1), events[n - 1]);
    }
  }

  lemma NextKeepsLocked(s: State, e: Event)
    requires Locked(s) && !Intrudes(s, e)
    ensures Locked(Next(s, e))
  {
    if Enabled(s, e) {
      StepKeepsLocked(s, e);
    }
  }

  /** Reverts never overlap, and none starts after a lock-out, if and only if the watchdog never reports a
      reorganisation while `chainReorged` is set. */
  lemma OneRevertExactlyWhen(prefetch: nat, height: nat, target: nat, events: seq<Event>)
    ensures var s := Init(prefetch, height, target);
      (forall k :: 0 <= k <= |events| ==> Safe(After(s, events, k))) <==> NeverIntrudes(s, events, |events|)
  {
    var s := Init(prefetch, height, target);
    if NeverIntrudes(s, events, |events|) {
      forall k | 0 <= k <= |events| ensures Safe(After(s, events, k)) {
        QuietRunIsSafe(s, events, k);
      }
    } else {
      var k := UnsafeAfterIntrusion(s, events);
    }
  }

  lemma QuietRunIsSafe(s: State, events: seq<Event>, n: nat)
    requires n <= |events| && Locked(s) && NeverIntrudes(s, events, n)
    ensures Safe(After(s, events, n))
  {
    QuietRunIsLocked(s, events, n);
  }

  lemma UnsafeAfterIntrusion(s: State, events: seq<Event>) returns (k: nat)
    requires Locked(s) && !NeverIntrudes(s, events, |events|)
    ensures k <= |events| && !Safe(After(s, events, k))
  {
    var j := FirstIntrusion(s, events, 0);
    QuietRunIsLocked(s, events, j);
    k := j + 1;
  }

  lemma FirstIntrusion(s: State, events: seq<Event>, from: nat) returns (k: nat)
    requires from <= |events| && NeverIntrudes(s, events, from)
    requires !NeverIntrudes(s, events, |events|)
    ensures k < |events| && Intrudes(After(s, events, k), events[k])
    ensures NeverIntrudes(s, events, k)
    decreases |events| - from
  {
    if from == |events| || Intrudes(After(s, events, from), events[from]) {
      k := from;
    } else {
      k := FirstIntrusion(s, events, from + 1);
    }
  }

  /** Every task in process in `s'` was already in process in `s`. */
  ghost predicate NothingStarted(s: State, s': State) {
    forall r' :: r' in s'.runners ==> exists r :: r in s.runners && r.task.id == r'.task.id
  }

  /** While the lock is held no step starts a task or adds to the queue. */
  lemma LockStopsTasks(s: State, e: Event)
    requires OneTask(s) && s.chainReorged && Enabled(s, e)
    ensures NothingStarted(s, Step(s, e)) && (Step(s, e).queue == s.queue || Step(s, e).queue == [])
  {
    var s' := Step(s, e);
    LockKeepsRunners(s, e);
    forall r' | r' in s'.runners ensures exists r :: r in s.runners && r.task.id == r'.task.id {
      var k :| 0 <= k < |s'.runners| && s'.runners[k] == r';
      assert k == 0 && s.runners[0] in s.runners;
    }
  }

  lemma LockKeepsRunners(s: State, e: Event)
    requires OneTask(s) && s.chainReorged && Enabled(s, e)
    ensures SameWork(s, Step(s, e))
  {
    match e
    case Continue(i) => ReleaseUnderLock(s, i);
    case Finish(i) => ReleaseUnderLock(s, i);
    case Record(_) =>
    case Return(i) => ReleaseUnderLock(s, i);
    case Throw(i) => ReleaseUnderLock(s, i);
    case Sent(_, _) => RevertUnderLock(s, e);
    case Observed(_, _, _) => RevertUnderLock(s, e);
    case Notified(_, _) => RevertUnderLock(s, e);
    case Stopped(_) => RevertUnderLock(s, e);
    case BlockChange(_) =>
    case Resume =>
    case Verify(_) =>
    case NoReorg(_) =>
    case Detect(_, _) =>
    case Complete(_) =>
  }

  ghost predicate SameWork(s: State, s': State) {
    && (s'.queue == s.queue || s'.queue == [])
    && (s'.runners == [] || (|s'.runners| == |s.runners| == 1 && s'.runners[0].task.id == s.runners[0].task.id))
  }

  lemma ReleaseUnderLock(s: State, i: nat)
    requires OneTask(s) && s.chainReorged && i < |s.runners|
    ensures SameWork(s, Release(s, i, true)) && Failed(s, i) == Release(s, i, true)
  {
  }

  lemma RevertUnderLock(s: State, e: Event)
    requires OneTask(s) && Enabled(s, e) && (e.Stopped? || e.Sent? || e.Observed? || e.Notified?)
    ensures SameWork(s, Step(s, e))
  {
  }

  /** The node is locked for good, and whatever is still in process was already so in `origin`. */
  ghost predicate LockedOut(origin: State, s: State) {
    && Locked(s) && s.poisoned
    && NothingStarted(origin, s)
  }

  /** Once a step has failed after storage was modified, no later event starts a task or a revert, fills the
      queue or releases the lock. */
  lemma LockOutIsAbsorbing(s: State, events: seq<Event>, n: nat)
    requires n <= |events| && Locked(s) && s.poisoned && NeverIntrudes(s, events, n)
    ensures var s' := After(s, events, n);
      && s'.poisoned && s'.chainReorged && s'.reverts == [] && s'.queue == [] && s'.current.None?
      && NothingStarted(s, s')
  {
    StaysLockedOut(s, events, n);
  }

  lemma {:induction false} StaysLockedOut(s: State, events: seq<Event>, n: nat)
    requires n <= |events| && Locked(s) && s.poisoned && NeverIntrudes(s, events, n)
    ensures LockedOut(s, After(s, events, n))
  {
    if n > 0 {
      StaysLockedOut(s, events, n - 1);
      NextKeepsLockedOut(s, After(s, events, n - 1), events[n - 1]);
    }
  }

  lemma NextKeepsLockedOut(origin: State, s: State, e: Event)
    requires LockedOut(origin, s) && !Intrudes(s, e)
    ensures LockedOut(origin, Next(s, e))
  {
    if Enabled(s, e) {
      NextKeepsLocked(s, e);
      LockStopsTasks(s, e);
    }
  }

  // ----- when the watchdog can intrude -----

  /** A regression that arrives while a task waits for the watchdog's verdict. */
  ghost predicate Races(s: State, e: Event) {
    e.BlockChange? && IsRegression(s, e.height) && exists r :: r in s.runners && r.phase == Verifying
  }

  /** While the node is locked no task waits for a verdict, and none will ask for one. */
  ghost predicate Attentive(s: State) {
    && (s.runners != [] && s.chainReorged ==> s.runners[0].phase != Verifying)
    && (s.runners != [] && s.runners[0].phase == Preparing && (s.chainReorged || s.current.None?) ==>
          s.runners[0].task.flagged)
    && (s.reverts != [] && s.reverts[0].origin == ProcessingError ==>
          s.runners != [] && s.runners[0].phase == InErrorRevert)
  }

  lemma StartKeepsAttentive(s: State)
    requires Locked(s) && Attentive(s)
    ensures Attentive(StartTasks(s))
  {
    FillKeeps(s, Room(s));
  }

  lemma ReleaseIsAttentive(s: State, i: nat)
    requires Locked(s) && Attentive(s) && i < |s.runners| && s.runners[i].phase != InErrorRevert
    ensures Attentive(Release(s, i, true)) && Attentive(Release(s, i, false))
  {
    var freed := s.(taskInProgress := false, current := None, runners := Without(s.runners, i));
    assert Locked(freed);
    StartKeepsAttentive(freed);
  }

  lemma FailedIsAttentive(s: State, i: nat)
    requires Locked(s) && Attentive(s) && i < |s.runners| && s.runners[i].phase != InErrorRevert
    ensures Attentive(Failed(s, i))
  {
    ReleaseIsAttentive(s, i);
  }

  lemma RevertKeepsAttentive(s: State, e: Event)
    requires Locked(s) && Attentive(s) && Enabled(s, e)
    requires e.Stopped? || e.Sent? || e.Observed? || e.Notified?
    ensures Attentive(Step(s, e))
  {
    assert s.chainReorged;
    match e
    case Stopped(j) =>
    case Sent(j, ok) => EndKeepsAttentive(s, j, false, false);
    case Observed(j, ok, t) => EndKeepsAttentive(s, j, false, true);
    case Notified(j, ok) => EndKeepsAttentive(s, j, ok, !ok);
  }

  lemma EndKeepsAttentive(s: State, j: nat, ok: bool, keepLock: bool)
    requires Locked(s) && Attentive(s) && j < |s.reverts|
    ensures Attentive(EndRevert(s, j, ok, keepLock))
  {
  }

  lemma EventKeepsAttentive(s: State, e: Event)
    requires Locked(s) && Attentive(s) && Enabled(s, e) && !Races(s, e) && (e.BlockChange? || e.Resume?)
    ensures Attentive(Step(s, e))
  {
    match e
    case BlockChange(h) =>
      assert Locked(s.(target := h));
      StartKeepsAttentive(s.(target := h));
      assert s.runners != [] ==> s.runners[0] in s.runners;
    case Resume =>
      assert Locked(s.(resumes := s.resumes - 1));
      StartKeepsAttentive(s.(resumes := s.resumes - 1));
  }

  lemma StepKeepsAttentive(s: State, e: Event)
    requires Locked(s) && Attentive(s) && Enabled(s, e) && !Races(s, e)
    ensures Attentive(Step(s, e))
  {
    match e
    case BlockChange(_) => EventKeepsAttentive(s, e);
    case Resume => EventKeepsAttentive(s, e);
    case Return(i) => ReleaseIsAttentive(s, i);
    case Finish(i) => ReleaseIsAttentive(s, i);
    case Record(_) =>
    case Throw(i) => FailedIsAttentive(s, i);
    case Continue(i) =>
      ReleaseIsAttentive(s, i);
      FailedIsAttentive(s, i);
    case Verify(_) =>
    case NoReorg(_) =>
    case Detect(_, _) =>
    case Complete(_) =>
    case _ => RevertKeepsAttentive(s, e);
  }

  ghost predicate NeverRaces(s: State, events: seq<Event>, n: nat)
    requires n <= |events|
  {
    forall k :: 0 <= k < n ==> !Races(After(s, events, k), events[k])
  }

  /** The watchdog intrudes only if a height regression arrives while a task waits for its verdict. */
  lemma NoRaceNoIntrusion(s: State, events: seq<Event>)
    requires Watchful(s) && NeverRaces(s, events, |events|)
    ensures NeverIntrudes(s, events, |events|) && Watchful(After(s, events, |events|))
  {
    forall k | 0 <= k < |events| ensures !Intrudes(After(s, events, k), events[k]) {
      StaysWatchful(s, events, k);
    }
    StaysWatchful(s, events, |events|);
  }

  ghost predicate Watchful(s: State) {
    Locked(s) && Attentive(s)
  }

  lemma {:induction false} StaysWatchful(s: State, events: seq<Event>, n: nat)
    requires n <= |events| && Watchful(s) && NeverRaces(s, events, n)
    ensures Watchful(After(s, events, n))
  {
    if n > 0 {
      StaysWatchful(s, events, n - 1);
      NextKeepsAttentive(After(s, events, n - 1), events[n - 1]);
    }
  }

  lemma NextKeepsAttentive(s: State, e: Event)
    requires Watchful(s) && !Races(s, e)
    ensures Watchful(Next(s, e))
  {
    NextKeepsLocked(s, e);
    if Enabled(s, e) {
      StepKeepsAttentive(s, e);
    }
  }

  /** Conversely, after such a regression the verdict may come at once, and then two reverts overlap. */
  lemma RaceOverlaps(s: State, e: Event, i: nat, from: nat)
    requires Locked(s) && Races(s, e) && RunnerIn(s, i, {Verifying})
    ensures Intrudes(Step(s, e), Detect(i, from))
    ensures |Step(Step(s, e), Detect(i, from)).reverts| == 2
  {
  }

  /** It happens: the first block event starts the node, its task asks the watchdog, the tip is replaced at the
      same height, and the watchdog reports the same replacement. */
  lemma OverlapExample()
    ensures |After(Init(1, 5, 9), [BlockChange(9), Verify(0), BlockChange(5), Detect(0, 4)], 4).reverts| == 2
  {
    var events := [BlockChange(9), Verify(0), BlockChange(5), Detect(0, 4)];
    var s0 := Init(1, 5, 9);
    var s1 := FirstTask(5, 9);
    assert After(s0, events, 1) == s1;
    var s2 := Step(s1, events[1]);
    assert After(s0, events, 2) == s2;
    var s3 := Step(s2, events[2]);
    assert After(s0, events, 3) == s3;
    assert IsRegression(s2, 5) && RunnerIn(s3, 0, {Verifying});
    assert After(s0, events, 4) == Step(s3, events[3]);
  }

  /** The first block event starts one task when the prefetch size is one. */
  lemma FirstTask(height: nat, target: nat) returns (s: State)
    requires height <= target
    ensures s == Step(Init(1, height, target), BlockChange(target))
    ensures s == State(1, true, false, true, Some(0), [], [Runner(Task(0, height, false, false), Preparing)], [], false, 0,
                       1, height + 1, target, height)
  {
    var s0 := Init(1, height, target);
    s := Step(s0, BlockChange(target));
    assert Room(s0) == 1 && FillQueue(s0, 1) == FillQueue(NextTask(s0), 0) == NextTask(s0);
    assert ProcessNextTask(NextTask(s0)).queue == [];
  }
}
