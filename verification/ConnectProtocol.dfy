/**
  `ssh_connect`, `ssh_cancel_connect`, `ssh_disconnect` and `reconnect_stored_connection`
  running concurrently. A step is one lock-held block of one call (see `ConnectTables`), or
  the completion of something that happens outside the locks. Steps of different calls
  interleave freely. What a call finds out from the network, the vault or the scheduler is
  part of the step, so the theorems hold for every outcome.

  Attempt ids are assumed to be distinct, as the callers generate them.
 */
module ConnectProtocol {
  import opened Wrappers
  import opened ConnectTables

  type ReconnectId = nat

  /** The spawned task that dials the server. */
  datatype Task = NotSpawned | Running | Delivered(handle: HandleId) | EndedInError | EndedByAbort

  datatype CallOutcome = Installed(handle: HandleId) | Discarded(handle: HandleId) | NoHandle

  /** Where one call of `ssh_connect` stands. */
  datatype Phase =
    | Resolving                             // resolving vault references and passphrases
    | ResolveFailed(sawCancel: bool)
    | Resolved
    | Spawned                               // task spawned, slot not yet switched to Connecting
    | Aborting                              // lost its slot: task aborted, waiting for it to end
    | Awaiting                              // slot is Connecting, waiting for the task
    | Joined(result: Option<HandleId>)
    | Owning(handle: HandleId)              // passed the ownership check
    | Discarding(handle: HandleId)          // failed it: the session is about to be disconnected
    | Returned(outcome: CallOutcome)

  datatype Attempt = Attempt(connection: ConnectionId, phase: Phase, task: Task, abortRequested: bool)

  datatype ReconnectPhase =
    | WaitingForLock(lock: HandleId)
    | LockHeld(lock: HandleId)
    | Dialing(lock: HandleId, expected: u64)
    | Dialed(lock: HandleId, expected: u64, handle: HandleId)
    | Finished

  datatype Reconnect = Reconnect(connection: ConnectionId, phase: ReconnectPhase)

  /** What has happened to handles and attempts so far; no step reads it. */
  datatype History = History(
    revoked: set<AttemptId>,
    delivered: map<HandleId, AttemptId>,
    installed: set<HandleId>,
    disconnected: set<HandleId>)

  datatype State = State(
    tasks: ConnectTasks,
    connections: Connections,
    attempts: map<AttemptId, Attempt>,
    reconnects: map<ReconnectId, Reconnect>,
    usedHandles: set<HandleId>,
    history: History)

  const INITIAL := State(map[], map[], map[], map[], {}, History({}, map[], {}, {}))

  datatype Step =
    // ssh_connect
    | Begin(attempt: AttemptId, connection: ConnectionId)
    | Resolve(attempt: AttemptId, ok: bool, sawCancel: bool)
    | FailPrepare(attempt: AttemptId)
    | CheckPrepared(attempt: AttemptId)
    | PublishTask(attempt: AttemptId)
    | TaskDelivers(attempt: AttemptId, handle: HandleId)
    | TaskFails(attempt: AttemptId)
    | TaskAborts(attempt: AttemptId)
    | Join(attempt: AttemptId)
    | TakeOwnership(attempt: AttemptId)
    | Install(attempt: AttemptId)
    | Discard(attempt: AttemptId)
    // ssh_cancel_connect and the commands that drop connections
    | Cancel(connection: ConnectionId, which: Option<AttemptId>)
    | Disconnect(ids: set<ConnectionId>)
    // reconnect_stored_connection
    | BeginReconnect(reconnect: ReconnectId, connection: ConnectionId)
    | AcquireLock(reconnect: ReconnectId)
    | ReadGeneration(reconnect: ReconnectId)
    | Dial(reconnect: ReconnectId, handle: HandleId)
    | FailReconnect(reconnect: ReconnectId)
    | Replace(reconnect: ReconnectId)

  function SetPhase(s: State, a: AttemptId, phase: Phase): State
    requires a in s.attempts
  {
    s.(attempts := s.attempts[a := s.attempts[a].(phase := phase)])
  }

  function SetTask(s: State, a: AttemptId, task: Task): State
    requires a in s.attempts
  {
    s.(attempts := s.attempts[a := s.attempts[a].(task := task)])
  }

  /** Requests the abort of an attempt's task. The request may take effect at any later time, or too late. */
  function RequestAbort(attempts: map<AttemptId, Attempt>, which: Option<AttemptId>): map<AttemptId, Attempt> {
    if which.Some? && which.value in attempts
    then attempts[which.value := attempts[which.value].(abortRequested := true)]
    else attempts
  }

  function SetReconnect(s: State, r: ReconnectId, phase: ReconnectPhase): State
    requires r in s.reconnects
  {
    s.(reconnects := s.reconnects[r := s.reconnects[r].(phase := phase)])
  }

  /** The call's own attempt is in this phase. */
  predicate At(s: State, a: AttemptId, phase: Phase) {
    a in s.attempts && s.attempts[a].phase == phase
  }

  predicate HoldsLock(reconnect: Reconnect, lock: HandleId) {
    (reconnect.phase.LockHeld? || reconnect.phase.Dialing? || reconnect.phase.Dialed?)
    && reconnect.phase.lock == lock
  }

  predicate LockFree(s: State, lock: HandleId) {
    forall r :: r in s.reconnects ==> !HoldsLock(s.reconnects[r], lock)
  }

  /** Lines 978-992: the call takes the slot, revoking whoever held it. */
  function BeginStep(s: State, a: AttemptId, c: ConnectionId): Option<State> {
    if a in s.attempts then None else
      var replaced := if c in s.tasks then {s.tasks[c].attemptId} else {};
      Some(s.(
           tasks := AfterRegister(s.tasks, c, a),
           attempts := RequestAbort(s.attempts, AbortedByRegister(s.tasks, c))
                       [a := Attempt(c, Resolving, NotSpawned, false)],
           history := s.history.(revoked := s.history.revoked + replaced)))
  }

  function ResolveStep(s: State, a: AttemptId, ok: bool, sawCancel: bool): Option<State> {
    if !At(s, a, Resolving) then None
    else Some(SetPhase(s, a, if ok then Resolved else ResolveFailed(sawCancel)))
  }

  function FailPrepareStep(s: State, a: AttemptId): Option<State> {
    if a !in s.attempts || !s.attempts[a].phase.ResolveFailed? then None else
      Some(SetPhase(s.(tasks := AfterFailPrepare(s.tasks, s.attempts[a].connection, a)), a, Returned(NoHandle)))
  }

  function CheckPreparedStep(s: State, a: AttemptId): Option<State> {
    if !At(s, a, Resolved) then None else
      var c := s.attempts[a].connection;
      var s' := s.(tasks := AfterCheckPrepared(s.tasks, c, a));
      if PreparedVerdict(s.tasks, c, a) == Proceed
      then Some(SetPhase(SetTask(s', a, Running), a, Spawned))
      else Some(SetPhase(s', a, Returned(NoHandle)))
  }

  function PublishStep(s: State, a: AttemptId): Option<State> {
    if !At(s, a, Spawned) then None else
      var c := s.attempts[a].connection;
      var s' := s.(tasks := AfterPublish(s.tasks, c, a));
      if PreparedVerdict(s.tasks, c, a) == Proceed
      then Some(SetPhase(s', a, Awaiting))
      else Some(SetPhase(s'.(attempts := RequestAbort(s.attempts, Some(a))), a, Aborting))
  }

  function DeliverStep(s: State, a: AttemptId, h: HandleId): Option<State> {
    if a !in s.attempts || s.attempts[a].task != Running || h in s.usedHandles then None else
      Some(SetTask(s, a, Delivered(h)).(
           usedHandles := s.usedHandles + {h},
           history := s.history.(delivered := s.history.delivered[h := a])))
  }

  function EndTaskStep(s: State, a: AttemptId, aborted: bool): Option<State> {
    if a !in s.attempts || s.attempts[a].task != Running || (aborted && !s.attempts[a].abortRequested) then None
    else Some(SetTask(s, a, if aborted then EndedByAbort else EndedInError))
  }

  /** The call learns how its task ended. */
  function JoinStep(s: State, a: AttemptId): Option<State> {
    if a !in s.attempts || s.attempts[a].task == NotSpawned || s.attempts[a].task == Running then None else
      var task := s.attempts[a].task;
      match s.attempts[a].phase
      case Awaiting =>
        Some(SetPhase(s, a, Joined(if task.Delivered? then Some(task.handle) else None)))
      case Aborting =>
        Some(SetPhase(s, a, if task.Delivered? then Discarding(task.handle) else Returned(NoHandle)))
      case _ => None
  }

  function TakeOwnershipStep(s: State, a: AttemptId): Option<State> {
    if a !in s.attempts || !s.attempts[a].phase.Joined? then None else
      var c := s.attempts[a].connection;
      var result := s.attempts[a].phase.result;
      var s' := s.(tasks := AfterTakeOwnership(s.tasks, c, a));
      Some(SetPhase(s', a,
                    if result.None? then Returned(NoHandle)
                    else if IsConnecting(s.tasks, c, a) then Owning(result.value)
                    else Discarding(result.value)))
  }

  function InstallStep(s: State, a: AttemptId): Option<State> {
    if a !in s.attempts || !s.attempts[a].phase.Owning? then None else
      var h := s.attempts[a].phase.handle;
      Some(SetPhase(s, a, Returned(Installed(h))).(
           connections := AfterInstall(s.connections, s.attempts[a].connection, h),
           history := s.history.(installed := s.history.installed + {h})))
  }

  function DiscardStep(s: State, a: AttemptId): Option<State> {
    if a !in s.attempts || !s.attempts[a].phase.Discarding? then None else
      var h := s.attempts[a].phase.handle;
      Some(SetPhase(s, a, Returned(Discarded(h))).(
           history := s.history.(disconnected := s.history.disconnected + {h})))
  }

  function CancelStep(s: State, c: ConnectionId, which: Option<AttemptId>): Option<State> {
    if !CancelMatches(s.tasks, c, which) then Some(s) else
      Some(s.(
           tasks := AfterCancel(s.tasks, c, which),
           attempts := RequestAbort(s.attempts, AbortedByCancel(s.tasks, c, which)),
           history := s.history.(revoked := s.history.revoked + {s.tasks[c].attemptId})))
  }

  function BeginReconnectStep(s: State, r: ReconnectId, c: ConnectionId): Option<State> {
    if r in s.reconnects then None
    else if c !in s.connections then Some(s)
    else Some(s.(reconnects := s.reconnects[r := Reconnect(c, WaitingForLock(s.connections[c].lock))]))
  }

  function AcquireLockStep(s: State, r: ReconnectId): Option<State> {
    if r !in s.reconnects || !s.reconnects[r].phase.WaitingForLock? then None
    else if !LockFree(s, s.reconnects[r].phase.lock) then None
    else Some(SetReconnect(s, r, LockHeld(s.reconnects[r].phase.lock)))
  }

  function ReadGenerationStep(s: State, r: ReconnectId): Option<State> {
    if r !in s.reconnects || !s.reconnects[r].phase.LockHeld? then None else
      var c := s.reconnects[r].connection;
      if c !in s.connections then Some(SetReconnect(s, r, Finished))
      else Some(SetReconnect(s, r, Dialing(s.reconnects[r].phase.lock, s.connections[c].generation)))
  }

  function DialStep(s: State, r: ReconnectId, h: HandleId): Option<State> {
    if r !in s.reconnects || !s.reconnects[r].phase.Dialing? || h in s.usedHandles then None else
      var phase := s.reconnects[r].phase;
      Some(SetReconnect(s, r, Dialed(phase.lock, phase.expected, h)).(usedHandles := s.usedHandles + {h}))
  }

  function FailReconnectStep(s: State, r: ReconnectId): Option<State> {
    if r !in s.reconnects || !s.reconnects[r].phase.Dialing? then None
    else Some(SetReconnect(s, r, Finished))
  }

  function ReplaceStep(s: State, r: ReconnectId): Option<State> {
    if r !in s.reconnects || !s.reconnects[r].phase.Dialed? then None else
      var phase := s.reconnects[r].phase;
      Some(SetReconnect(s, r, Finished).(
           connections := AfterReplace(s.connections, s.reconnects[r].connection,
                                       phase.expected, phase.handle, phase.lock)))
  }

  /** The effect of a step, or `None` where it is not enabled. */
  function Apply(s: State, step: Step): Option<State> {
    match step
    case Begin(a, c) => BeginStep(s, a, c)
    case Resolve(a, ok, sawCancel) => ResolveStep(s, a, ok, sawCancel)
    case FailPrepare(a) => FailPrepareStep(s, a)
    case CheckPrepared(a) => CheckPreparedStep(s, a)
    case PublishTask(a) => PublishStep(s, a)
    case TaskDelivers(a, h) => DeliverStep(s, a, h)
    case TaskFails(a) => EndTaskStep(s, a, false)
    case TaskAborts(a) => EndTaskStep(s, a, true)
    case Join(a) => JoinStep(s, a)
    case TakeOwnership(a) => TakeOwnershipStep(s, a)
    case Install(a) => InstallStep(s, a)
    case Discard(a) => DiscardStep(s, a)
    case Cancel(c, which) => CancelStep(s, c, which)
    case Disconnect(ids) => Some(s.(connections := s.connections - ids))
    case BeginReconnect(r, c) => BeginReconnectStep(s, r, c)
    case AcquireLock(r) => AcquireLockStep(s, r)
    case ReadGeneration(r) => ReadGenerationStep(s, r)
    case Dial(r, h) => DialStep(s, r, h)
    case FailReconnect(r) => FailReconnectStep(s, r)
    case Replace(r) => ReplaceStep(s, r)
  }

  /** A finite run: the states passed and the steps taken between them. */
  datatype Run = Run(states: seq<State>, steps: seq<Step>)

  ghost predicate IsRun(run: Run) {
    && |run.states| == |run.steps| + 1
    && run.states[0] == INITIAL
    && forall i :: 0 <= i < |run.steps| ==> Apply(run.states[i], run.steps[i]) == Some(run.states[i + 1])
  }

  /** Step `i` of a run leads from its state `i` to its state `i + 1`. */
  lemma StepOfRun(run: Run, i: nat)
    requires IsRun(run) && i < |run.steps|
    ensures Apply(run.states[i], run.steps[i]) == Some(run.states[i + 1])
  {
  }

  /** A run goes on with any step that is enabled. */
  lemma LongerRun(run: Run, step: Step, s': State)
    requires IsRun(run) && Apply(run.states[|run.steps|], step) == Some(s')
    ensures IsRun(Run(run.states + [s'], run.steps + [step]))
  {
    hide Apply;
    var longer := Run(run.states + [s'], run.steps + [step]);
    forall i | 0 <= i < |longer.steps| ensures Apply(longer.states[i], longer.steps[i]) == Some(longer.states[i + 1]) {
      if i < |run.steps| {
        StepOfRun(run, i);
      }
    }
  }
}
