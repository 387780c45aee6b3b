/** What every run of the connect protocol keeps. */
module ConnectSafety {
  import opened Wrappers
  import opened ConnectTables
  import opened ConnectProtocol

  /** The attempt still has to find its slot in preparation. */
  predicate InPreparation(phase: Phase) {
    phase.Resolving? || phase.ResolveFailed? || phase.Resolved? || phase.Spawned?
  }

  /** The attempt still has to find its slot connecting. */
  predicate InConnection(phase: Phase) {
    phase.Awaiting? || phase.Joined?
  }

  /** What the slot table says about an attempt in this phase. */
  predicate SlotAgrees(s: State, a: AttemptId)
    requires a in s.attempts
  {
    var c := s.attempts[a].connection;
    var phase := s.attempts[a].phase;
    && (InPreparation(phase) && a !in s.history.revoked ==> c in s.tasks && s.tasks[c] == Preparing(a, false))
    && (InConnection(phase) ==> (IsConnecting(s.tasks, c, a) <==> a !in s.history.revoked))
    && (phase.Owning? ==> a !in s.history.revoked)
    && (phase.Returned? && phase.outcome.Installed? ==> a !in s.history.revoked)
  }

  /** A slot belongs to a call in flight, and a slot still in preparation is cancelled exactly when revoked. */
  predicate SlotOwned(s: State, c: ConnectionId)
    requires c in s.tasks
  {
    var a := s.tasks[c].attemptId;
    && a in s.attempts
    && s.attempts[a].connection == c
    && (s.tasks[c].Preparing? ==> InPreparation(s.attempts[a].phase)
                                  && (s.tasks[c].cancelled <==> a in s.history.revoked))
    && (s.tasks[c].Connecting? ==> InConnection(s.attempts[a].phase))
  }

  ghost predicate SlotInvariant(s: State) {
    && (forall a :: a in s.attempts ==> SlotAgrees(s, a))
    && (forall c :: c in s.tasks ==> SlotOwned(s, c))
    && (forall a :: a in s.history.revoked ==> a in s.attempts)
  }

  lemma SlotsBegin(s: State, a: AttemptId, c: ConnectionId)
    requires SlotInvariant(s) && BeginStep(s, a, c).Some?
    ensures SlotInvariant(BeginStep(s, a, c).value)
  {
  }

  lemma SlotsResolve(s: State, a: AttemptId, ok: bool, sawCancel: bool)
    requires SlotInvariant(s) && ResolveStep(s, a, ok, sawCancel).Some?
    ensures SlotInvariant(ResolveStep(s, a, ok, sawCancel).value)
  {
  }

  lemma SlotsFailPrepare(s: State, a: AttemptId)
    requires SlotInvariant(s) && FailPrepareStep(s, a).Some?
    ensures SlotInvariant(FailPrepareStep(s, a).value)
  {
  }

  lemma SlotsCheckPrepared(s: State, a: AttemptId)
    requires SlotInvariant(s) && CheckPreparedStep(s, a).Some?
    ensures SlotInvariant(CheckPreparedStep(s, a).value)
  {
  }

  lemma SlotsPublish(s: State, a: AttemptId)
    requires SlotInvariant(s) && PublishStep(s, a).Some?
    ensures SlotInvariant(PublishStep(s, a).value)
  {
    if PreparedVerdict(s.tasks, s.attempts[a].connection, a) == Proceed {
      SlotsPublished(s, a);
    }
  }

  lemma SlotsPublished(s: State, a: AttemptId)
    requires SlotInvariant(s) && PublishStep(s, a).Some?
    requires PreparedVerdict(s.tasks, s.attempts[a].connection, a) == Proceed
    ensures SlotInvariant(PublishStep(s, a).value)
  {
  }

  lemma SlotsDeliver(s: State, a: AttemptId, h: HandleId)
    requires SlotInvariant(s) && DeliverStep(s, a, h).Some?
    ensures SlotInvariant(DeliverStep(s, a, h).value)
  {
  }

  lemma SlotsEndTask(s: State, a: AttemptId, aborted: bool)
    requires SlotInvariant(s) && EndTaskStep(s, a, aborted).Some?
    ensures SlotInvariant(EndTaskStep(s, a, aborted).value)
  {
  }

  lemma SlotsJoin(s: State, a: AttemptId)
    requires SlotInvariant(s) && JoinStep(s, a).Some?
    ensures SlotInvariant(JoinStep(s, a).value)
  {
  }

  lemma SlotsTakeOwnership(s: State, a: AttemptId)
    requires SlotInvariant(s) && TakeOwnershipStep(s, a).Some?
    ensures SlotInvariant(TakeOwnershipStep(s, a).value)
  {
  }

  lemma SlotsInstall(s: State, a: AttemptId)
    requires SlotInvariant(s) && InstallStep(s, a).Some?
    ensures SlotInvariant(InstallStep(s, a).value)
  {
  }

  lemma SlotsDiscard(s: State, a: AttemptId)
    requires SlotInvariant(s) && DiscardStep(s, a).Some?
    ensures SlotInvariant(DiscardStep(s, a).value)
  {
  }

  lemma SlotsCancel(s: State, c: ConnectionId, which: Option<AttemptId>)
    requires SlotInvariant(s) && CancelStep(s, c, which).Some?
    ensures SlotInvariant(CancelStep(s, c, which).value)
  {
  }

  /** The phase a call may be in when its task stands like this. */
  predicate HandleFits(phase: Phase, task: Task) {
    && (phase.Resolving? || phase.ResolveFailed? || phase.Resolved? ==> task == NotSpawned)
    && (phase.Spawned? || phase.Aborting? || phase.Awaiting? ==> task != NotSpawned)
    && (phase.Joined? || phase.Owning? || phase.Discarding? || phase.Returned? ==> task != Running)
    && (phase.Joined? ==> (phase.result.Some? <==> task.Delivered?))
    && (phase.Joined? && phase.result.Some? ==> task == Delivered(phase.result.value))
    && (phase.Owning? || phase.Discarding? ==> task == Delivered(phase.handle))
    && (phase.Returned? ==> (phase.outcome == NoHandle <==> !task.Delivered?))
    && (phase.Returned? && task.Delivered? ==> phase.outcome.handle == task.handle)
  }

  /** A delivered handle is where the call's phase says it is. */
  predicate HandleAgrees(s: State, a: AttemptId)
    requires a in s.attempts
  {
    var task := s.attempts[a].task;
    && HandleFits(s.attempts[a].phase, task)
    && (task.Delivered? ==> task.handle in s.history.delivered && s.history.delivered[task.handle] == a)
  }

  /** A handle was delivered by one attempt, and has been installed or disconnected exactly if that attempt says so. */
  predicate DeliveryAgrees(s: State, h: HandleId)
    requires h in s.history.delivered
  {
    var a := s.history.delivered[h];
    && h in s.usedHandles
    && a in s.attempts
    && s.attempts[a].task == Delivered(h)
    && (h in s.history.installed <==> s.attempts[a].phase == Returned(Installed(h)))
    && (h in s.history.disconnected <==> s.attempts[a].phase == Returned(Discarded(h)))
  }

  ghost predicate HandleInvariant(s: State) {
    && (forall a :: a in s.attempts ==> HandleAgrees(s, a))
    && (forall h :: h in s.history.delivered ==> DeliveryAgrees(s, h))
    && s.history.installed <= s.history.delivered.Keys
    && s.history.disconnected <= s.history.delivered.Keys
  }

  /** Slots, connections, reconnects and abort requests do not matter to the handles. */
  predicate SameCalls(s: State, s': State) {
    && s'.attempts.Keys == s.attempts.Keys
    && (forall a :: a in s.attempts
          ==> s'.attempts[a].phase == s.attempts[a].phase && s'.attempts[a].task == s.attempts[a].task)
  }

  lemma HandlesFrame(s: State, s': State)
    requires HandleInvariant(s) && SameCalls(s, s') && s.usedHandles <= s'.usedHandles
    requires s'.history == s.history.(revoked := s'.history.revoked)
    ensures HandleInvariant(s')
  {
    forall a | a in s'.attempts ensures HandleAgrees(s', a) { assert HandleAgrees(s, a); }
    forall h | h in s'.history.delivered ensures DeliveryAgrees(s', h) { assert DeliveryAgrees(s, h); }
  }

  /** A call may move on to any phase that fits its task, short of installing or disconnecting a handle. */
  lemma HandlesMove(s: State, a: AttemptId, phase: Phase)
    requires HandleInvariant(s) && a in s.attempts && !s.attempts[a].phase.Returned?
    requires HandleFits(phase, s.attempts[a].task) && (phase.Returned? ==> phase.outcome == NoHandle)
    ensures HandleInvariant(SetPhase(s, a, phase))
  {
  }

  lemma HandlesBegin(s: State, a: AttemptId, c: ConnectionId)
    requires HandleInvariant(s) && BeginStep(s, a, c).Some?
    ensures HandleInvariant(BeginStep(s, a, c).value)
  {
  }

  lemma HandlesResolve(s: State, a: AttemptId, ok: bool, sawCancel: bool)
    requires HandleInvariant(s) && ResolveStep(s, a, ok, sawCancel).Some?
    ensures HandleInvariant(ResolveStep(s, a, ok, sawCancel).value)
  {
  }

  lemma HandlesFailPrepare(s: State, a: AttemptId)
    requires HandleInvariant(s) && FailPrepareStep(s, a).Some?
    ensures HandleInvariant(FailPrepareStep(s, a).value)
  {
  }

  lemma HandlesCheckPrepared(s: State, a: AttemptId)
    requires HandleInvariant(s) && CheckPreparedStep(s, a).Some?
    ensures HandleInvariant(CheckPreparedStep(s, a).value)
  {
  }

  lemma HandlesPublish(s: State, a: AttemptId)
    requires HandleInvariant(s) && PublishStep(s, a).Some?
    ensures HandleInvariant(PublishStep(s, a).value)
  {
    hide HandleFits, HandleAgrees, DeliveryAgrees;
    var s' := PublishStep(s, a).value;
    PublishFits(s, a);
    HandlesMove(s, a, s'.attempts[a].phase);
    HandlesFrame(SetPhase(s, a, s'.attempts[a].phase), s');
  }

  lemma PublishFits(s: State, a: AttemptId)
    requires HandleInvariant(s) && PublishStep(s, a).Some?
    ensures !s.attempts[a].phase.Returned?
    ensures var phase := PublishStep(s, a).value.attempts[a].phase;
            HandleFits(phase, s.attempts[a].task) && !phase.Returned?
  {
    assert HandleAgrees(s, a);
  }

  lemma HandlesDeliver(s: State, a: AttemptId, h: HandleId)
    requires HandleInvariant(s) && DeliverStep(s, a, h).Some?
    ensures HandleInvariant(DeliverStep(s, a, h).value)
  {
  }

  lemma HandlesEndTask(s: State, a: AttemptId, aborted: bool)
    requires HandleInvariant(s) && EndTaskStep(s, a, aborted).Some?
    ensures HandleInvariant(EndTaskStep(s, a, aborted).value)
  {
  }

  lemma HandlesJoin(s: State, a: AttemptId)
    requires HandleInvariant(s) && JoinStep(s, a).Some?
    ensures HandleInvariant(JoinStep(s, a).value)
  {
    hide HandleFits, HandleAgrees, DeliveryAgrees;
    JoinFits(s, a);
    HandlesMove(s, a, JoinStep(s, a).value.attempts[a].phase);
  }

  lemma JoinFits(s: State, a: AttemptId)
    requires HandleInvariant(s) && JoinStep(s, a).Some?
    ensures !s.attempts[a].phase.Returned?
    ensures var s' := JoinStep(s, a).value;
            && HandleFits(s'.attempts[a].phase, s.attempts[a].task)
            && (s'.attempts[a].phase.Returned? ==> s'.attempts[a].phase.outcome == NoHandle)
            && s' == SetPhase(s, a, s'.attempts[a].phase)
  {
    assert HandleAgrees(s, a);
  }

  lemma HandlesTakeOwnership(s: State, a: AttemptId)
    requires HandleInvariant(s) && TakeOwnershipStep(s, a).Some?
    ensures HandleInvariant(TakeOwnershipStep(s, a).value)
  {
  }

  lemma HandlesInstall(s: State, a: AttemptId)
    requires HandleInvariant(s) && InstallStep(s, a).Some?
    ensures HandleInvariant(InstallStep(s, a).value)
  {
  }

  lemma HandlesDiscard(s: State, a: AttemptId)
    requires HandleInvariant(s) && DiscardStep(s, a).Some?
    ensures HandleInvariant(DiscardStep(s, a).value)
  {
  }

  lemma HandlesCancel(s: State, c: ConnectionId, which: Option<AttemptId>)
    requires HandleInvariant(s) && CancelStep(s, c, which).Some?
    ensures HandleInvariant(CancelStep(s, c, which).value)
  {
  }

  /** No two reconnects are past the same lock object. */
  ghost predicate LockInvariant(s: State) {
    forall r, r', lock :: r in s.reconnects && r' in s.reconnects && r != r'
      && HoldsLock(s.reconnects[r], lock)
      ==> !HoldsLock(s.reconnects[r'], lock)
  }

  ghost predicate Invariant(s: State) {
    SlotInvariant(s) && HandleInvariant(s) && LockInvariant(s)
  }

  /** The steps of the other commands leave the reconnects alone. */
  lemma ReconnectsKept(s: State, step: Step)
    requires Apply(s, step).Some?
    ensures step.BeginReconnect? || step.AcquireLock? || step.ReadGeneration? || step.Dial? || step.FailReconnect?
            || step.Replace? || Apply(s, step).value.reconnects == s.reconnects
  {
  }

  lemma LocksKept(s: State, step: Step)
    requires LockInvariant(s) && Apply(s, step).Some?
    ensures LockInvariant(Apply(s, step).value)
  {
    hide BeginStep, ResolveStep, FailPrepareStep, CheckPreparedStep, PublishStep, DeliverStep, EndTaskStep, JoinStep,
      TakeOwnershipStep, InstallStep, DiscardStep, CancelStep;
    ReconnectsKept(s, step);
  }

  lemma SlotsKept(s: State, step: Step)
    requires SlotInvariant(s) && Apply(s, step).Some?
    ensures SlotInvariant(Apply(s, step).value)
  {
    match step
    case Begin(a, c) => SlotsBegin(s, a, c);
    case Resolve(a, ok, sawCancel) => SlotsResolve(s, a, ok, sawCancel);
    case FailPrepare(a) => SlotsFailPrepare(s, a);
    case CheckPrepared(a) => SlotsCheckPrepared(s, a);
    case PublishTask(a) => SlotsPublish(s, a);
    case TaskDelivers(a, h) => SlotsDeliver(s, a, h);
    case TaskFails(a) => SlotsEndTask(s, a, false);
    case TaskAborts(a) => SlotsEndTask(s, a, true);
    case Join(a) => SlotsJoin(s, a);
    case TakeOwnership(a) => SlotsTakeOwnership(s, a);
    case Install(a) => SlotsInstall(s, a);
    case Discard(a) => SlotsDiscard(s, a);
    case Cancel(c, which) => SlotsCancel(s, c, which);
    case _ =>
      var s' := Apply(s, step).value;
      assert s'.(connections := s.connections, reconnects := s.reconnects, usedHandles := s.usedHandles) == s;
      SlotsFrame(s, Apply(s, step).value);
  }

  /** Connections and reconnects do not touch the slots. */
  lemma SlotsFrame(s: State, s': State)
    requires SlotInvariant(s)
    requires s'.(connections := s.connections, reconnects := s.reconnects, usedHandles := s.usedHandles) == s
    ensures SlotInvariant(s')
  {
  }

  lemma HandlesKept(s: State, step: Step)
    requires HandleInvariant(s) && Apply(s, step).Some?
    ensures HandleInvariant(Apply(s, step).value)
  {
    match step
    case Begin(a, c) => HandlesBegin(s, a, c);
    case Resolve(a, ok, sawCancel) => HandlesResolve(s, a, ok, sawCancel);
    case FailPrepare(a) => HandlesFailPrepare(s, a);
    case CheckPrepared(a) => HandlesCheckPrepared(s, a);
    case PublishTask(a) => HandlesPublish(s, a);
    case TaskDelivers(a, h) => HandlesDeliver(s, a, h);
    case TaskFails(a) => HandlesEndTask(s, a, false);
    case TaskAborts(a) => HandlesEndTask(s, a, true);
    case Join(a) => HandlesJoin(s, a);
    case TakeOwnership(a) => HandlesTakeOwnership(s, a);
    case Install(a) => HandlesInstall(s, a);
    case Discard(a) => HandlesDiscard(s, a);
    case Cancel(c, which) => HandlesCancel(s, c, which);
    case _ =>
      var s' := Apply(s, step).value;
      assert s'.(connections := s.connections, reconnects := s.reconnects, usedHandles := s.usedHandles) == s;
      HandlesFrame(s, Apply(s, step).value);
  }

  /** Every step of every call keeps the invariant. */
  lemma InvariantKept(s: State, step: Step)
    requires Invariant(s) && Apply(s, step).Some?
    ensures Invariant(Apply(s, step).value)
  {
    SlotsKept(s, step);
    HandlesKept(s, step);
    LocksKept(s, step);
  }

  lemma {:induction false} InvariantHolds(run: Run, i: nat)
    requires IsRun(run) && i < |run.states|
    ensures Invariant(run.states[i])
  {
    hide Apply;
    if i > 0 {
      InvariantHolds(run, i - 1);
      StepOfRun(run, i - 1);
      InvariantKept(run.states[i - 1], run.steps[i - 1]);
    }
  }

  // ----- Cancellation and superseding -----

  /** This step is a cancel that matched the slot of `a`, or a newer call taking that slot over. */
  predicate Revokes(s: State, step: Step, a: AttemptId) {
    || (step.Cancel? && step.connection in s.tasks && s.tasks[step.connection].attemptId == a
        && (step.which == None || step.which == Some(a)))
    || (step.Begin? && step.connection in s.tasks && s.tasks[step.connection].attemptId == a)
  }

  /** The recorded revocations are exactly the revoking steps of the run. */
  lemma {:induction false} RevokedExactly(run: Run, i: nat, a: AttemptId)
    requires IsRun(run) && i < |run.states|
    ensures a in run.states[i].history.revoked
       <==> exists k :: 0 <= k < i && Revokes(run.states[k], run.steps[k], a)
  {
    hide Apply;
    if i > 0 {
      RevokedExactly(run, i - 1, a);
      StepOfRun(run, i - 1);
      RevokedByStep(run.states[i - 1], run.steps[i - 1], a);
    }
  }

  lemma RevokedByStep(s: State, step: Step, a: AttemptId)
    requires Apply(s, step).Some?
    ensures a in Apply(s, step).value.history.revoked <==> a in s.history.revoked || Revokes(s, step, a)
  {
  }

  /** A call past its ownership check has no slot left to cancel or take over. */
  lemma NoSlotLeft(s: State, step: Step, a: AttemptId)
    requires SlotInvariant(s) && a in s.attempts
    requires !InPreparation(s.attempts[a].phase) && !InConnection(s.attempts[a].phase)
    ensures !Revokes(s, step, a)
  {
    if (step.Cancel? || step.Begin?) && step.connection in s.tasks {
      assert SlotOwned(s, step.connection);
    }
  }

  /** An attempt that was cancelled or superseded while it had a slot never installs a handle, before or after. */
  lemma RevokedNeverInstalls(run: Run, i: nat, j: nat, a: AttemptId)
    requires IsRun(run) && i < |run.steps| && j < |run.steps|
    requires Revokes(run.states[i], run.steps[i], a)
    ensures run.steps[j] != Install(a)
  {
    if run.steps[j] == Install(a) {
      InvariantHolds(run, j);
      StepOfRun(run, j);
      assert SlotAgrees(run.states[j], a);
      if i < j {
        RevokedExactly(run, j, a);
      } else if j < i {
        ReturnedForever(run, j + 1, i, a);
        ReturnedNotRevoked(run, i, a);
      }
    }
  }

  lemma ReturnedNotRevoked(run: Run, i: nat, a: AttemptId)
    requires IsRun(run) && i < |run.steps| && a in run.states[i].attempts && run.states[i].attempts[a].phase.Returned?
    ensures !Revokes(run.states[i], run.steps[i], a)
  {
    InvariantHolds(run, i);
    NoSlotLeft(run.states[i], run.steps[i], a);
  }

  lemma {:induction false} ReturnedForever(run: Run, i: nat, j: nat, a: AttemptId)
    requires IsRun(run) && i <= j < |run.states|
    requires a in run.states[i].attempts && run.states[i].attempts[a].phase.Returned?
    ensures a in run.states[j].attempts && run.states[j].attempts[a].phase == run.states[i].attempts[a].phase
    decreases j
  {
    hide Apply;
    if i < j {
      ReturnedForever(run, i, j - 1, a);
      StepOfRun(run, j - 1);
      ReturnedStays(run.states[j - 1], run.steps[j - 1], a);
    }
  }

  lemma ReturnedStays(s: State, step: Step, a: AttemptId)
    requires a in s.attempts && s.attempts[a].phase.Returned? && Apply(s, step).Some?
    ensures a in Apply(s, step).value.attempts && Apply(s, step).value.attempts[a].phase == s.attempts[a].phase
  {
  }

  /** The ownership check is exact: a call whose task delivered a handle goes on to install it if and
      only if no cancel and no newer call has taken its slot so far. */
  lemma OwnershipIsExact(run: Run, i: nat, a: AttemptId)
    requires IsRun(run) && i < |run.steps| && run.steps[i] == TakeOwnership(a)
    requires a in run.states[i].attempts && run.states[i].attempts[a].task.Delivered?
    ensures a in run.states[i + 1].attempts
    ensures run.states[i + 1].attempts[a].phase.Owning?
       <==> !exists k :: 0 <= k < i && Revokes(run.states[k], run.steps[k], a)
    ensures !run.states[i + 1].attempts[a].phase.Owning? ==> run.states[i + 1].attempts[a].phase.Discarding?
  {
    InvariantHolds(run, i);
    StepOfRun(run, i);
    RevokedExactly(run, i, a);
    assert SlotAgrees(run.states[i], a) && HandleAgrees(run.states[i], a);
  }

  /** So are both checks before it: preparation goes on if and only if no cancel and no newer call has taken the slot so
      far. */
  lemma PreparationChecksAreExact(run: Run, i: nat, a: AttemptId)
    requires IsRun(run) && i < |run.steps| && (run.steps[i] == CheckPrepared(a) || run.steps[i] == PublishTask(a))
    ensures a in run.states[i].attempts
    ensures PreparedVerdict(run.states[i].tasks, run.states[i].attempts[a].connection, a) == Proceed
       <==> !exists k :: 0 <= k < i && Revokes(run.states[k], run.steps[k], a)
    ensures a in run.states[i + 1].attempts
    ensures var goesOn := !exists k :: 0 <= k < i && Revokes(run.states[k], run.steps[k], a);
            var next := run.states[i + 1].attempts[a];
            && (run.steps[i].CheckPrepared? ==> next.phase == if goesOn then Spawned else Returned(NoHandle))
            && (run.steps[i].CheckPrepared? ==> (next.task == NotSpawned <==> !goesOn))
            && (run.steps[i].PublishTask? ==> next.phase == if goesOn then Awaiting else Aborting)
  {
    InvariantHolds(run, i);
    StepOfRun(run, i);
    RevokedExactly(run, i, a);
    assert SlotAgrees(run.states[i], a);
  }

  // ----- Conservation and quiescence -----

  /** When a call has returned, a handle its task delivered was either installed or disconnected, and not both. */
  lemma HandleConserved(run: Run, i: nat, a: AttemptId)
    requires IsRun(run) && i < |run.states|
    requires a in run.states[i].attempts && run.states[i].attempts[a].phase.Returned?
    requires run.states[i].attempts[a].task.Delivered?
    ensures var s := run.states[i];
            var h := s.attempts[a].task.handle;
            (h in s.history.installed) != (h in s.history.disconnected)
  {
    InvariantHolds(run, i);
    var s := run.states[i];
    assert HandleAgrees(s, a);
    assert DeliveryAgrees(s, s.attempts[a].task.handle);
  }

  /** A returned call owns no slot; so with no call in flight the slot table is empty. */
  lemma QuiescentTableIsEmpty(run: Run, i: nat)
    requires IsRun(run) && i < |run.states|
    ensures forall c :: c in run.states[i].tasks
              ==> var a := run.states[i].tasks[c].attemptId;
                  a in run.states[i].attempts && !run.states[i].attempts[a].phase.Returned?
    ensures (forall a :: a in run.states[i].attempts ==> run.states[i].attempts[a].phase.Returned?)
            ==> run.states[i].tasks == map[]
  {
    InvariantHolds(run, i);
    forall c | c in run.states[i].tasks
      ensures var a := run.states[i].tasks[c].attemptId;
              a in run.states[i].attempts && !run.states[i].attempts[a].phase.Returned?
    {
      assert SlotOwned(run.states[i], c);
    }
  }

  // ----- Progress -----

  /** How much of its own work a call has left. */
  function Remaining(call: Attempt): nat {
    var steps := match call.phase
                 case Resolving => 7
                 case Resolved => 6
                 case Spawned => 5
                 case Awaiting => 4
                 case Joined(_) => 3
                 case Aborting => 2
                 case ResolveFailed(_) => 1
                 case Owning(_) => 1
                 case Discarding(_) => 1
                 case Returned(_) => 0;
    2 * steps + (if call.task == Running then 1 else 0)
  }

  /** A step the call, or the task it waits for, can take on its own. */
  function OwnStep(call: Attempt, a: AttemptId): Step
    requires !call.phase.Returned?
  {
    match call.phase
    case Resolving => Resolve(a, true, false)
    case ResolveFailed(_) => FailPrepare(a)
    case Resolved => CheckPrepared(a)
    case Spawned => PublishTask(a)
    case Joined(_) => TakeOwnership(a)
    case Owning(_) => Install(a)
    case Discarding(_) => Discard(a)
    case _ => if call.task == Running then TaskFails(a) else Join(a)
  }

  /** A call in flight is never blocked by the others: its own next step is enabled and brings it nearer to
      returning, and no step of any call sets it back. So it returns within fourteen steps of its own. */
  lemma CallReturns(run: Run, i: nat, a: AttemptId, step: Step)
    requires IsRun(run) && i < |run.states| && a in run.states[i].attempts
    requires Apply(run.states[i], step).Some?
    ensures var s := run.states[i];
            var s' := Apply(s, step).value;
            && Remaining(s.attempts[a]) <= 14
            && a in s'.attempts
            && Remaining(s'.attempts[a]) <= Remaining(s.attempts[a])
    ensures var s := run.states[i];
            !s.attempts[a].phase.Returned? ==> Advances(s, OwnStep(s.attempts[a], a), a)
  {
    InvariantHolds(run, i);
    var s := run.states[i];
    assert HandleAgrees(s, a);
    RemainingNeverGrows(s, step, a);
    if !s.attempts[a].phase.Returned? {
      OwnStepEnabled(s, a);
    }
  }

  lemma RemainingNeverGrows(s: State, step: Step, a: AttemptId)
    requires a in s.attempts && HandleAgrees(s, a) && Apply(s, step).Some?
    ensures a in Apply(s, step).value.attempts
    ensures Remaining(Apply(s, step).value.attempts[a]) <= Remaining(s.attempts[a])
  {
    if step.Begin? || step.Resolve? || step.FailPrepare? || step.CheckPrepared? || step.PublishTask? {
      PreparationNeverGrows(s, step, a);
    } else {
      hide BeginStep, ResolveStep, FailPrepareStep, CheckPreparedStep, PublishStep;
    }
  }

  lemma PreparationNeverGrows(s: State, step: Step, a: AttemptId)
    requires step.Begin? || step.Resolve? || step.FailPrepare? || step.CheckPrepared? || step.PublishTask?
    requires a in s.attempts && HandleAgrees(s, a) && Apply(s, step).Some?
    ensures a in Apply(s, step).value.attempts
    ensures Remaining(Apply(s, step).value.attempts[a]) <= Remaining(s.attempts[a])
  {
  }

  /** The step is enabled and brings the call nearer to returning. */
  predicate Advances(s: State, step: Step, a: AttemptId)
    requires a in s.attempts
  {
    && Apply(s, step).Some?
    && a in Apply(s, step).value.attempts
    && Remaining(Apply(s, step).value.attempts[a]) < Remaining(s.attempts[a])
  }

  lemma OwnStepEnabled(s: State, a: AttemptId)
    requires a in s.attempts && HandleAgrees(s, a) && !s.attempts[a].phase.Returned?
    ensures Advances(s, OwnStep(s.attempts[a], a), a)
  {
    match s.attempts[a].phase
    case Resolving => assert Advances(s, Resolve(a, true, false), a);
    case ResolveFailed(_) => assert Advances(s, FailPrepare(a), a);
    case Resolved => assert Advances(s, CheckPrepared(a), a);
    case Spawned => assert Advances(s, PublishTask(a), a);
    case _ => OwnTaskStepEnabled(s, a);
  }

  lemma OwnTaskStepEnabled(s: State, a: AttemptId)
    requires a in s.attempts && HandleAgrees(s, a)
    requires !s.attempts[a].phase.Returned? && !InPreparation(s.attempts[a].phase)
    ensures Advances(s, OwnStep(s.attempts[a], a), a)
  {
  }
}
