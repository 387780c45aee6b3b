/**
  The commands at work: each step of the protocol is taken by calling the lock-held block of
  `AppState`, and what the block answers decides how the call goes on.
 */
module ConnectCommands {
  import opened Wrappers
  import opened ConnectTables
  import opened AppStateModel
  import opened ConnectProtocol
  import ConnectHandles
  import ConnectSafety

  /** The shared tables are those of the protocol state. */
  ghost predicate Mirrors(app: AppState, s: State)
    reads app
  {
    app.connectTasks == s.tasks && app.connections == s.connections
  }

  method TakeBegin(app: AppState, s: State, a: AttemptId, c: ConnectionId) returns (s': State)
    requires Mirrors(app, s) && BeginStep(s, a, c).Some?
    modifies app
    ensures BeginStep(s, a, c) == Some(s') && Mirrors(app, s')
  {
    var replaced := if c in app.connectTasks then {app.connectTasks[c].attemptId} else {};
    var aborted := app.RegisterAttempt(c, a);
    return s.(
      tasks := app.connectTasks,
      attempts := RequestAbort(s.attempts, aborted)[a := Attempt(c, Resolving, NotSpawned, false)],
      history := s.history.(revoked := s.history.revoked + replaced));
  }

  /** The three checks while a connection is being prepared. */
  method TakePrepareStep(app: AppState, s: State, step: Step) returns (s': State)
    requires step.FailPrepare? || step.CheckPrepared? || step.PublishTask?
    requires Mirrors(app, s) && Apply(s, step).Some?
    modifies app
    ensures Apply(s, step) == Some(s') && Mirrors(app, s')
  {
    var a := step.attempt;
    var c := s.attempts[a].connection;
    match step {
      case FailPrepare(_) =>
        var _ := app.FailPrepare(c, a, s.attempts[a].phase.sawCancel);
        s' := SetPhase(s.(tasks := app.connectTasks), a, Returned(NoHandle));
      case CheckPrepared(_) =>
        var verdict := app.CheckPrepared(c, a);
        s' := s.(tasks := app.connectTasks);
        s' := if verdict == Proceed then SetPhase(SetTask(s', a, Running), a, Spawned)
              else SetPhase(s', a, Returned(NoHandle));
      case PublishTask(_) =>
        var verdict := app.PublishTask(c, a);
        s' := s.(tasks := app.connectTasks);
        s' := if verdict == Proceed then SetPhase(s', a, Awaiting)
              else SetPhase(s'.(attempts := RequestAbort(s.attempts, Some(a))), a, Aborting);
    }
  }

  method TakeOwnershipOf(app: AppState, s: State, a: AttemptId) returns (s': State)
    requires Mirrors(app, s) && TakeOwnershipStep(s, a).Some?
    modifies app
    ensures TakeOwnershipStep(s, a) == Some(s') && Mirrors(app, s')
  {
    var result := s.attempts[a].phase.result;
    var owns := app.TakeOwnership(s.attempts[a].connection, a);
    s' := s.(tasks := app.connectTasks);
    s' := SetPhase(s', a, if result.None? then Returned(NoHandle)
                          else if owns then Owning(result.value)
                          else Discarding(result.value));
  }

  method TakeInstall(app: AppState, s: State, a: AttemptId) returns (s': State)
    requires Mirrors(app, s) && InstallStep(s, a).Some?
    modifies app
    ensures InstallStep(s, a) == Some(s') && Mirrors(app, s')
  {
    var h := s.attempts[a].phase.handle;
    app.Install(s.attempts[a].connection, h);
    return SetPhase(s, a, Returned(Installed(h))).(
      connections := app.connections,
      history := s.history.(installed := s.history.installed + {h}));
  }

  method TakeCancel(app: AppState, s: State, c: ConnectionId, which: Option<AttemptId>) returns (s': State)
    requires Mirrors(app, s)
    modifies app
    ensures CancelStep(s, c, which) == Some(s') && Mirrors(app, s')
  {
    var revoked := if CancelMatches(app.connectTasks, c, which) then {app.connectTasks[c].attemptId} else {};
    var aborted := app.CancelConnect(c, which);
    s' := s.(
      tasks := app.connectTasks,
      attempts := RequestAbort(s.attempts, aborted),
      history := s.history.(revoked := s.history.revoked + revoked));
    assert revoked == {} ==> s' == s;
  }

  method TakeReconnectStep(app: AppState, s: State, step: Step) returns (s': State)
    requires step.BeginReconnect? || step.ReadGeneration? || step.Replace?
    requires Mirrors(app, s) && Apply(s, step).Some?
    modifies app
    ensures Apply(s, step) == Some(s') && Mirrors(app, s')
  {
    var r := step.reconnect;
    match step {
      case BeginReconnect(_, c) =>
        var lock := app.ReconnectLock(c);
        s' := if lock.None? then s
              else s.(reconnects := s.reconnects[r := Reconnect(c, WaitingForLock(lock.value))]);
      case ReadGeneration(_) =>
        var generation := app.ExpectedGeneration(s.reconnects[r].connection);
        s' := if generation.None? then SetReconnect(s, r, Finished)
              else SetReconnect(s, r, Dialing(s.reconnects[r].phase.lock, generation.value));
      case Replace(_) =>
        var phase := s.reconnects[r].phase;
        var _ := app.ReplaceIfUnchanged(s.reconnects[r].connection, phase.expected, phase.handle, phase.lock);
        s' := SetReconnect(s, r, Finished).(connections := app.connections);
    }
  }

  /** One step of the protocol, on the tables. */
  method TakeStep(app: AppState, s: State, step: Step) returns (s': State)
    requires Mirrors(app, s) && Apply(s, step).Some?
    modifies app
    ensures Apply(s, step) == Some(s') && Mirrors(app, s')
  {
    hide BeginStep, TakeOwnershipStep, InstallStep, CancelStep;
    match step {
      case Begin(a, c) => s' := TakeBegin(app, s, a, c);
      case FailPrepare(_) => s' := TakePrepareStep(app, s, step);
      case CheckPrepared(_) => s' := TakePrepareStep(app, s, step);
      case PublishTask(_) => s' := TakePrepareStep(app, s, step);
      case TakeOwnership(a) => s' := TakeOwnershipOf(app, s, a);
      case Install(a) => s' := TakeInstall(app, s, a);
      case Cancel(c, which) => s' := TakeCancel(app, s, c, which);
      case Disconnect(ids) =>
        app.Disconnect(ids);
        s' := s.(connections := app.connections);
      case BeginReconnect(_, _) => s' := TakeReconnectStep(app, s, step);
      case ReadGeneration(_) => s' := TakeReconnectStep(app, s, step);
      case Replace(_) => s' := TakeReconnectStep(app, s, step);
      case _ => s' := Apply(s, step).value;
    }
  }

  /** Any schedule of the commands, carried out on new tables up to the first step that cannot be taken: what is proved
      of runs of the protocol holds of the tables. A revoked attempt was not installed, with no call in flight no
      slot is left in the table, and every connection has the handle last put into its entry. */
  method Execute(schedule: seq<Step>) returns (app: AppState, run: Run)
    ensures IsRun(run) && run.steps <= schedule && Mirrors(app, run.states[|run.steps|])
    ensures run.steps == schedule || Apply(run.states[|run.steps|], schedule[|run.steps|]).None?
    ensures forall i, a :: 0 <= i < |run.steps| && ConnectSafety.Revokes(run.states[i], run.steps[i], a)
                           ==> Install(a) !in run.steps
    ensures (forall a :: a in run.states[|run.steps|].attempts ==> run.states[|run.steps|].attempts[a].phase.Returned?)
            ==> app.connectTasks == map[]
    ensures forall c :: ConnectHandles.IsLatest(run, |run.steps|, c)
  {
    hide Apply;
    app := new AppState();
    run := Run([INITIAL], []);
    var s := INITIAL;
    while |run.steps| < |schedule| && Apply(s, schedule[|run.steps|]).Some?
      invariant IsRun(run) && run.steps <= schedule && fresh(app)
      invariant s == run.states[|run.steps|] && Mirrors(app, s)
    {
      var step := schedule[|run.steps|];
      var s' := TakeStep(app, s, step);
      LongerRun(run, step, s');
      run := Run(run.states + [s'], run.steps + [step]);
      s := s';
    }
    RunIsSafe(run);
  }

  lemma RunIsSafe(run: Run)
    requires IsRun(run)
    ensures forall i, a :: 0 <= i < |run.steps| && ConnectSafety.Revokes(run.states[i], run.steps[i], a)
                           ==> Install(a) !in run.steps
    ensures (forall a :: a in run.states[|run.steps|].attempts ==> run.states[|run.steps|].attempts[a].phase.Returned?)
            ==> run.states[|run.steps|].tasks == map[]
    ensures forall c :: ConnectHandles.IsLatest(run, |run.steps|, c)
  {
    hide Apply, ConnectSafety.Revokes, ConnectHandles.IsLatest;
    forall c ensures ConnectHandles.IsLatest(run, |run.steps|, c) {
      ConnectHandles.EntryIsTheLatest(run, |run.steps|, c);
    }
    ConnectSafety.QuiescentTableIsEmpty(run, |run.steps|);
    forall i, a | 0 <= i < |run.steps| && ConnectSafety.Revokes(run.states[i], run.steps[i], a)
      ensures Install(a) !in run.steps
    {
      if Install(a) in run.steps {
        var j :| 0 <= j < |run.steps| && run.steps[j] == Install(a);
        ConnectSafety.RevokedNeverInstalls(run, i, j, a);
      }
    }
  }
}
