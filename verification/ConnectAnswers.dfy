/** Whose task is aborted, and what a call in preparation that cannot go on is told, over whole runs. */
module ConnectAnswers {
  import opened Wrappers
  import opened ConnectTables
  import opened ConnectProtocol
  import opened ConnectSafety

  // ----- Whose task is aborted -----

  /** The step takes the slot of `b` over or cancels it while its task is connecting, or finds at the second check that
      the slot is not `b`'s any more or was cancelled. */
  predicate Aborts(s: State, step: Step, b: AttemptId) {
    || (step.Begin? && step.connection in s.tasks && s.tasks[step.connection] == Connecting(b))
    || (step.Cancel? && step.connection in s.tasks && s.tasks[step.connection] == Connecting(b)
        && (step.which == None || step.which == Some(b)))
    || (step == PublishTask(b) && b in s.attempts
        && !(s.attempts[b].connection in s.tasks && s.tasks[s.attempts[b].connection] == Preparing(b, false)))
  }

  ghost predicate AbortedBefore(run: Run, i: nat, b: AttemptId)
    requires IsRun(run) && i < |run.states|
  {
    exists k :: 0 <= k < i && Aborts(run.states[k], run.steps[k], b)
  }

  /** A task is asked to end exactly by such a step, and no other task is. */
  lemma {:induction false} AbortedExactly(run: Run, i: nat, b: AttemptId)
    requires IsRun(run) && i < |run.states|
    ensures b in run.states[i].attempts ==> (run.states[i].attempts[b].abortRequested <==> AbortedBefore(run, i, b))
    ensures b !in run.states[i].attempts ==> !AbortedBefore(run, i, b)
  {
    hide Apply, Aborts;
    if i > 0 {
      AbortedExactly(run, i - 1, b);
      StepOfRun(run, i - 1);
      InvariantHolds(run, i - 1);
      AbortedByStep(run.states[i - 1], run.steps[i - 1], b);
      OneStepMore(run, i, b);
    }
  }

  lemma OneStepMore(run: Run, i: nat, b: AttemptId)
    requires IsRun(run) && 0 < i < |run.states|
    ensures AbortedBefore(run, i, b) <==> AbortedBefore(run, i - 1, b) || Aborts(run.states[i - 1], run.steps[i - 1], b)
  {
    hide Aborts;
    if AbortedBefore(run, i - 1, b) {
      var k :| 0 <= k < i - 1 && Aborts(run.states[k], run.steps[k], b);
      assert Aborts(run.states[k], run.steps[k], b);
    }
  }

  /** What a step does to the abort request of `b`. */
  predicate AbortFollows(s: State, s': State, step: Step, b: AttemptId) {
    if b in s.attempts
    then b in s'.attempts && (s'.attempts[b].abortRequested <==> s.attempts[b].abortRequested || Aborts(s, step, b))
    else !Aborts(s, step, b) && (b in s'.attempts ==> !s'.attempts[b].abortRequested)
  }

  lemma AbortedByBegin(s: State, step: Step, b: AttemptId)
    requires SlotInvariant(s) && step.Begin? && Apply(s, step).Some?
    ensures AbortFollows(s, Apply(s, step).value, step, b)
  {
    if step.connection in s.tasks { assert SlotOwned(s, step.connection); }
  }

  lemma AbortedByCancel(s: State, step: Step, b: AttemptId)
    requires SlotInvariant(s) && step.Cancel? && Apply(s, step).Some?
    ensures AbortFollows(s, Apply(s, step).value, step, b)
  {
    if step.connection in s.tasks { assert SlotOwned(s, step.connection); }
  }

  lemma AbortedByPublish(s: State, step: Step, b: AttemptId)
    requires step.PublishTask? && Apply(s, step).Some?
    ensures AbortFollows(s, Apply(s, step).value, step, b)
  {
  }

  lemma NotAbortedByCall(s: State, step: Step, b: AttemptId)
    requires step.Resolve? || step.FailPrepare? || step.CheckPrepared? || step.TaskDelivers? || step.TaskFails?
             || step.TaskAborts? || step.Join?
    requires Apply(s, step).Some?
    ensures AbortFollows(s, Apply(s, step).value, step, b)
  {
  }

  lemma NotAbortedLater(s: State, step: Step, b: AttemptId)
    requires step.TakeOwnership? || step.Install? || step.Discard? || step.Disconnect? || step.BeginReconnect?
             || step.AcquireLock? || step.ReadGeneration? || step.Dial? || step.FailReconnect? || step.Replace?
    requires Apply(s, step).Some?
    ensures AbortFollows(s, Apply(s, step).value, step, b)
  {
  }

  lemma AbortedByStep(s: State, step: Step, b: AttemptId)
    requires SlotInvariant(s) && Apply(s, step).Some?
    ensures AbortFollows(s, Apply(s, step).value, step, b)
  {
    hide Apply, SlotInvariant, AbortFollows;
    if step.Begin? { AbortedByBegin(s, step, b); }
    else if step.Cancel? { AbortedByCancel(s, step, b); }
    else if step.PublishTask? { AbortedByPublish(s, step, b); }
    else if step.Resolve? || step.FailPrepare? || step.CheckPrepared? || step.TaskDelivers? || step.TaskFails?
            || step.TaskAborts? || step.Join? { NotAbortedByCall(s, step, b); }
    else { NotAbortedLater(s, step, b); }
  }

  // ----- What a call that cannot go on is told -----

  /** A newer call has taken the slot of `a`. */
  ghost predicate TakenOver(run: Run, i: nat, a: AttemptId)
    requires IsRun(run) && i < |run.states|
  {
    exists k :: 0 <= k < i && TakesOver(run.states[k], run.steps[k], a)
  }

  predicate TakesOver(s: State, step: Step, a: AttemptId) {
    step.Begin? && step.connection in s.tasks && s.tasks[step.connection].attemptId == a
  }

  /** In preparation, a call's slot is its own until a newer call takes it over, and says whether it was cancelled. */
  predicate SlotTells(s: State, a: AttemptId, taken: bool) {
    a in s.attempts && InPreparation(s.attempts[a].phase) ==>
      (s.attempts[a].connection in s.tasks && s.tasks[s.attempts[a].connection].attemptId == a <==> !taken)
  }

  lemma {:induction false} SlotTellsTakenOver(run: Run, i: nat, a: AttemptId)
    requires IsRun(run) && i < |run.states|
    ensures SlotTells(run.states[i], a, TakenOver(run, i, a))
    ensures a !in run.states[i].attempts ==> !TakenOver(run, i, a)
  {
    hide Apply, TakesOver;
    if i > 0 {
      SlotTellsTakenOver(run, i - 1, a);
      StepOfRun(run, i - 1);
      InvariantHolds(run, i - 1);
      SlotTellsAfter(run.states[i - 1], run.steps[i - 1], a, TakenOver(run, i - 1, a));
      OneTakeOverMore(run, i, a);
    }
  }

  lemma OneTakeOverMore(run: Run, i: nat, a: AttemptId)
    requires IsRun(run) && 0 < i < |run.states|
    ensures TakenOver(run, i, a) <==> TakenOver(run, i - 1, a) || TakesOver(run.states[i - 1], run.steps[i - 1], a)
  {
    hide TakesOver;
    if TakenOver(run, i - 1, a) {
      var k :| 0 <= k < i - 1 && TakesOver(run.states[k], run.steps[k], a);
      assert TakesOver(run.states[k], run.steps[k], a);
    }
  }

  /** What a step does to the slot of a call in preparation. */
  predicate TellingFollows(s: State, s': State, step: Step, a: AttemptId, taken: bool) {
    && SlotTells(s', a, taken || TakesOver(s, step, a))
    && (a !in s'.attempts ==> a !in s.attempts && !TakesOver(s, step, a))
  }

  lemma TellsAfterBegin(s: State, step: Step, a: AttemptId, taken: bool)
    requires SlotInvariant(s) && step.Begin? && Apply(s, step).Some?
    requires SlotTells(s, a, taken) && (a !in s.attempts ==> !taken)
    ensures TellingFollows(s, Apply(s, step).value, step, a, taken)
  {
    if step.connection in s.tasks { assert SlotOwned(s, step.connection); }
  }

  lemma TellsAfterCancel(s: State, step: Step, a: AttemptId, taken: bool)
    requires SlotInvariant(s) && step.Cancel? && Apply(s, step).Some?
    requires SlotTells(s, a, taken) && (a !in s.attempts ==> !taken)
    ensures TellingFollows(s, Apply(s, step).value, step, a, taken)
  {
    if step.connection in s.tasks { assert SlotOwned(s, step.connection); }
  }

  lemma TellsAfterCheck(s: State, step: Step, a: AttemptId, taken: bool)
    requires SlotInvariant(s) && (step.FailPrepare? || step.CheckPrepared?) && Apply(s, step).Some?
    requires SlotTells(s, a, taken) && (a !in s.attempts ==> !taken)
    ensures TellingFollows(s, Apply(s, step).value, step, a, taken)
  {
  }

  lemma TellsAfterPublish(s: State, step: Step, a: AttemptId, taken: bool)
    requires SlotInvariant(s) && step.PublishTask? && Apply(s, step).Some?
    requires SlotTells(s, a, taken) && (a !in s.attempts ==> !taken)
    ensures TellingFollows(s, Apply(s, step).value, step, a, taken)
  {
  }

  lemma TellsAfterTask(s: State, step: Step, a: AttemptId, taken: bool)
    requires step.Resolve? || step.TaskDelivers? || step.TaskFails? || step.TaskAborts? || step.Join?
    requires SlotInvariant(s) && Apply(s, step).Some? && SlotTells(s, a, taken) && (a !in s.attempts ==> !taken)
    ensures TellingFollows(s, Apply(s, step).value, step, a, taken)
  {
  }

  lemma TellsAfterOwnership(s: State, step: Step, a: AttemptId, taken: bool)
    requires SlotInvariant(s) && (step.TakeOwnership? || step.Install? || step.Discard?) && Apply(s, step).Some?
    requires SlotTells(s, a, taken) && (a !in s.attempts ==> !taken)
    ensures TellingFollows(s, Apply(s, step).value, step, a, taken)
  {
  }

  lemma SlotTellsAfter(s: State, step: Step, a: AttemptId, taken: bool)
    requires SlotInvariant(s) && Apply(s, step).Some? && SlotTells(s, a, taken) && (a !in s.attempts ==> !taken)
    ensures TellingFollows(s, Apply(s, step).value, step, a, taken)
  {
    hide SlotInvariant, SlotTells;
    match step
    case Begin(_, _) => TellsAfterBegin(s, step, a, taken);
    case Cancel(_, _) => TellsAfterCancel(s, step, a, taken);
    case FailPrepare(_) => TellsAfterCheck(s, step, a, taken);
    case CheckPrepared(_) => TellsAfterCheck(s, step, a, taken);
    case PublishTask(_) => TellsAfterPublish(s, step, a, taken);
    case TakeOwnership(_) => TellsAfterOwnership(s, step, a, taken);
    case Install(_) => TellsAfterOwnership(s, step, a, taken);
    case Discard(_) => TellsAfterOwnership(s, step, a, taken);
    case Resolve(_, _, _) => TellsAfterTask(s, step, a, taken);
    case TaskDelivers(_, _) => TellsAfterTask(s, step, a, taken);
    case TaskFails(_) => TellsAfterTask(s, step, a, taken);
    case TaskAborts(_) => TellsAfterTask(s, step, a, taken);
    case Join(_) => TellsAfterTask(s, step, a, taken);
    case _ => SlotTellsOfSame(s, step, a, taken);
  }

  lemma SlotTellsOfSame(s: State, step: Step, a: AttemptId, taken: bool)
    requires step.Disconnect? || step.BeginReconnect? || step.AcquireLock? || step.ReadGeneration? || step.Dial?
             || step.FailReconnect? || step.Replace?
    requires Apply(s, step).Some? && SlotTells(s, a, taken) && (a !in s.attempts ==> !taken)
    ensures TellingFollows(s, Apply(s, step).value, step, a, taken)
  {
  }

  /** A call in preparation is told that it was superseded exactly when a newer one has taken its slot, and otherwise
      that it was cancelled exactly when a cancel has matched it, or was itself what made the preparation fail. */
  lemma PreparationAnswers(run: Run, i: nat, a: AttemptId, sawCancel: bool)
    requires IsRun(run) && i < |run.states|
    requires a in run.states[i].attempts && InPreparation(run.states[i].attempts[a].phase)
    ensures var tasks, c := run.states[i].tasks, run.states[i].attempts[a].connection;
            var taken := TakenOver(run, i, a);
            var revoked := exists k :: 0 <= k < i && Revokes(run.states[k], run.steps[k], a);
            && (PreparedVerdict(tasks, c, a) == Superseded <==> taken)
            && (PreparedVerdict(tasks, c, a) == Cancelled <==> !taken && revoked)
            && (PreparedVerdict(tasks, c, a) == Proceed <==> !revoked)
            && (FailPrepareVerdict(tasks, c, a, sawCancel) == Superseded <==> taken)
            && (FailPrepareVerdict(tasks, c, a, sawCancel) == Cancelled <==> !taken && (revoked || sawCancel))
            && (FailPrepareVerdict(tasks, c, a, sawCancel) == Failed <==> !revoked && !sawCancel)
  {
    InvariantHolds(run, i);
    RevokedExactly(run, i, a);
    SlotTellsTakenOver(run, i, a);
    var s := run.states[i];
    assert SlotAgrees(s, a);
    if s.attempts[a].connection in s.tasks { assert SlotOwned(s, s.attempts[a].connection); }
  }

  // ----- What comes from outside -----

  /** A call takes over what resolving came to and how its task ended; a task that ended without a handle gives none,
      and one is aborted only on request. */
  lemma OutsideIsTakenOver(run: Run, i: nat, a: AttemptId)
    requires IsRun(run) && i < |run.steps| && a in run.states[i].attempts
    ensures a in run.states[i + 1].attempts
    ensures var before, after := run.states[i].attempts[a], run.states[i + 1].attempts[a];
            && (run.steps[i] == Resolve(a, true, false) ==> after.phase == Resolved)
            && (forall saw :: run.steps[i] == Resolve(a, false, saw) ==> after.phase == ResolveFailed(saw))
            && (forall h :: run.steps[i] == TaskDelivers(a, h) ==> before.task == Running && after.task == Delivered(h))
            && (run.steps[i] == TaskFails(a) ==> before.task == Running && after.task == EndedInError)
            && (run.steps[i] == TaskAborts(a)
                ==> before.task == Running && before.abortRequested && after.task == EndedByAbort)
            && (run.steps[i] == Join(a) && before.phase == Awaiting
                ==> after.phase == Joined(if before.task.Delivered? then Some(before.task.handle) else None))
            && (run.steps[i] == Join(a) && before.phase == Aborting
                ==> after.phase == if before.task.Delivered? then Discarding(before.task.handle)
                                   else Returned(NoHandle))
  {
    StepOfRun(run, i);
    var step := run.steps[i];
    if step.Resolve? || step.TaskDelivers? || step.TaskFails? || step.TaskAborts? || step.Join? {
    } else {
      AttemptStays(run.states[i], step, a);
    }
  }

  lemma AttemptStays(s: State, step: Step, a: AttemptId)
    requires Apply(s, step).Some? && a in s.attempts
    ensures a in Apply(s, step).value.attempts
  {
  }
}
