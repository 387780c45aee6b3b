/** Sessions and locks belong to one connection each, over whole runs. */
module ConnectSharing {
  import opened Wrappers
  import opened ConnectTables
  import opened ConnectProtocol
  import opened ConnectSafety

  /** This handle was installed by an attempt at `c`. */
  predicate InstalledAt(s: State, h: HandleId, c: ConnectionId) {
    && h in s.history.installed && h in s.history.delivered && s.history.delivered[h] in s.attempts
    && s.attempts[s.history.delivered[h]].connection == c
  }

  predicate EntryFits(s: State, c: ConnectionId)
    requires c in s.connections
  {
    && s.connections[c].id in s.usedHandles
    && (s.connections[c].id in s.history.delivered ==> InstalledAt(s, s.connections[c].id, c))
    && InstalledAt(s, s.connections[c].lock, c)
  }

  ghost predicate ReconnectFits(s: State, r: ReconnectId)
    requires r in s.reconnects
  {
    var phase := s.reconnects[r].phase;
    && (!phase.Finished? ==> InstalledAt(s, phase.lock, s.reconnects[r].connection))
    && (phase.Dialed? ==> && phase.handle in s.usedHandles && phase.handle !in s.history.delivered
                          && forall c :: c in s.connections ==> s.connections[c].id != phase.handle)
  }

  /** No two reconnects hold the same new handle. */
  ghost predicate DialsDiffer(s: State) {
    forall q, r :: q in s.reconnects && r in s.reconnects && q != r
                   && s.reconnects[q].phase.Dialed? && s.reconnects[r].phase.Dialed?
                   ==> s.reconnects[q].phase.handle != s.reconnects[r].phase.handle
  }

  /** No two connections have the same handle. */
  ghost predicate IdsDiffer(s: State) {
    forall c, d :: c in s.connections && d in s.connections && c != d ==> s.connections[c].id != s.connections[d].id
  }

  ghost predicate Unshared(s: State) {
    && (forall c :: c in s.connections ==> EntryFits(s, c))
    && (forall r :: r in s.reconnects ==> ReconnectFits(s, r))
    && DialsDiffer(s) && IdsDiffer(s)
  }

  // ----- Steps that leave the handles where they are -----

  /** Connect calls move on; nothing is installed. */
  ghost predicate OnlyCallsMove(s: State, s': State) {
    && s'.connections == s.connections && s'.reconnects == s.reconnects && s.usedHandles <= s'.usedHandles
    && s.history.installed <= s'.history.installed
    && (forall a :: a in s.attempts ==> a in s'.attempts && s'.attempts[a].connection == s.attempts[a].connection)
    && (forall h :: h in s.history.delivered
                    ==> h in s'.history.delivered && s'.history.delivered[h] == s.history.delivered[h])
    && (forall h :: h in s'.history.delivered && h !in s.history.delivered ==> h !in s.usedHandles)
  }

  lemma StillUnshared(s: State, s': State)
    requires Unshared(s) && OnlyCallsMove(s, s')
    ensures Unshared(s')
  {
    forall c | c in s'.connections ensures EntryFits(s', c) { assert EntryFits(s, c); }
    forall r | r in s'.reconnects ensures ReconnectFits(s', r) { assert ReconnectFits(s, r); }
  }

  lemma DeliveredAreUsed(s: State)
    requires HandleInvariant(s)
    ensures s.history.delivered.Keys <= s.usedHandles
  {
    forall h | h in s.history.delivered ensures h in s.usedHandles { assert DeliveryAgrees(s, h); }
  }

  lemma PreparationMoves(s: State, step: Step)
    requires Apply(s, step).Some?
    requires step.Begin? || step.Resolve? || step.FailPrepare? || step.CheckPrepared? || step.PublishTask?
    ensures OnlyCallsMove(s, Apply(s, step).value)
  {
  }

  lemma DeliveryMoves(s: State, a: AttemptId, h: HandleId)
    requires HandleInvariant(s) && DeliverStep(s, a, h).Some?
    ensures OnlyCallsMove(s, DeliverStep(s, a, h).value)
  {
    DeliveredAreUsed(s);
  }

  lemma TaskMoves(s: State, step: Step)
    requires Apply(s, step).Some?
    requires step.TaskFails? || step.TaskAborts? || step.Join?
    ensures OnlyCallsMove(s, Apply(s, step).value)
  {
  }

  lemma EndMoves(s: State, step: Step)
    requires Apply(s, step).Some?
    requires step.TakeOwnership? || step.Discard? || step.Cancel?
    ensures OnlyCallsMove(s, Apply(s, step).value)
  {
  }

  lemma CallsMove(s: State, step: Step)
    requires HandleInvariant(s) && Apply(s, step).Some?
    requires !step.Install? && !step.Disconnect? && !step.BeginReconnect? && !step.AcquireLock?
    requires !step.ReadGeneration? && !step.Dial? && !step.FailReconnect? && !step.Replace?
    ensures OnlyCallsMove(s, Apply(s, step).value)
  {
    hide HandleInvariant, OnlyCallsMove;
    if step.Begin? || step.Resolve? || step.FailPrepare? || step.CheckPrepared? || step.PublishTask? {
      PreparationMoves(s, step);
    } else if step.TaskDelivers? {
      DeliveryMoves(s, step.attempt, step.handle);
    } else if step.TaskFails? || step.TaskAborts? || step.Join? {
      TaskMoves(s, step);
    } else {
      EndMoves(s, step);
    }
  }

  // ----- Steps that change the table -----

  lemma InstallUnshared(s: State, a: AttemptId)
    requires HandleInvariant(s) && Unshared(s) && InstallStep(s, a).Some?
    ensures Unshared(InstallStep(s, a).value)
  {
    var s', h := InstallStep(s, a).value, s.attempts[a].phase.handle;
    assert HandleAgrees(s, a) && DeliveryAgrees(s, h);
    forall c | c in s.connections ensures s.connections[c].id != h { assert EntryFits(s, c); }
    forall c | c in s'.connections ensures EntryFits(s', c) {
      if c in s.connections { assert EntryFits(s, c); }
    }
    forall r | r in s'.reconnects ensures ReconnectFits(s', r) { assert ReconnectFits(s, r); }
  }

  lemma ReplaceUnshared(s: State, r: ReconnectId)
    requires Unshared(s) && ReplaceStep(s, r).Some?
    ensures Unshared(ReplaceStep(s, r).value)
  {
    var s' := ReplaceStep(s, r).value;
    assert ReconnectFits(s, r);
    forall c | c in s'.connections ensures EntryFits(s', c) {
      if c in s.connections { assert EntryFits(s, c); }
    }
    forall q | q in s'.reconnects ensures ReconnectFits(s', q) { assert ReconnectFits(s, q); }
  }

  lemma DisconnectUnshared(s: State, ids: set<ConnectionId>)
    requires Unshared(s)
    ensures Unshared(s.(connections := s.connections - ids))
  {
    var s' := s.(connections := s.connections - ids);
    forall c | c in s'.connections ensures EntryFits(s', c) { assert EntryFits(s, c); }
    forall r | r in s'.reconnects ensures ReconnectFits(s', r) { assert ReconnectFits(s, r); }
  }

  // ----- Steps of a reconnect -----

  lemma ReconnectMoves(s: State, r: ReconnectId, next: Reconnect, used: set<HandleId>)
    requires Unshared(s) && s.usedHandles <= used
    requires var s' := s.(reconnects := s.reconnects[r := next], usedHandles := used); ReconnectFits(s', r)
    requires next.phase.Dialed? ==> next.phase.handle !in s.usedHandles
    ensures Unshared(s.(reconnects := s.reconnects[r := next], usedHandles := used))
  {
    var s' := s.(reconnects := s.reconnects[r := next], usedHandles := used);
    forall c | c in s'.connections ensures EntryFits(s', c) { assert EntryFits(s, c); }
    forall q | q in s'.reconnects ensures ReconnectFits(s', q) {
      if q != r { assert ReconnectFits(s, q); }
    }
    forall q | q in s.reconnects && s.reconnects[q].phase.Dialed?
      ensures s.reconnects[q].phase.handle in s.usedHandles
    {
      assert ReconnectFits(s, q);
    }
  }

  lemma BeginReconnectUnshared(s: State, r: ReconnectId, c: ConnectionId)
    requires Unshared(s) && BeginReconnectStep(s, r, c).Some?
    ensures Unshared(BeginReconnectStep(s, r, c).value)
  {
    if c in s.connections {
      assert EntryFits(s, c);
      ReconnectMoves(s, r, Reconnect(c, WaitingForLock(s.connections[c].lock)), s.usedHandles);
    }
  }

  lemma ReconnectUnshared(s: State, r: ReconnectId, step: Step)
    requires HandleInvariant(s) && Unshared(s) && Apply(s, step).Some?
    requires (step.AcquireLock? || step.ReadGeneration? || step.Dial? || step.FailReconnect?) && step.reconnect == r
    ensures Unshared(Apply(s, step).value)
  {
    var s' := Apply(s, step).value;
    assert ReconnectFits(s, r);
    if step.Dial? {
      forall c | c in s.connections ensures s.connections[c].id != step.handle { assert EntryFits(s, c); }
      DeliveredAreUsed(s);
    }
    assert s' == s.(reconnects := s.reconnects[r := s'.reconnects[r]], usedHandles := s'.usedHandles);
    ReconnectMoves(s, r, s'.reconnects[r], s'.usedHandles);
  }

  // ----- Runs -----

  lemma StepUnshared(s: State, step: Step)
    requires HandleInvariant(s) && Unshared(s) && Apply(s, step).Some?
    ensures Unshared(Apply(s, step).value)
  {
    hide Unshared, HandleInvariant, OnlyCallsMove;
    match step
    case Install(a) => InstallUnshared(s, a);
    case Disconnect(ids) => DisconnectUnshared(s, ids);
    case BeginReconnect(r, c) => BeginReconnectUnshared(s, r, c);
    case AcquireLock(r) => ReconnectUnshared(s, r, step);
    case ReadGeneration(r) => ReconnectUnshared(s, r, step);
    case Dial(r, _) => ReconnectUnshared(s, r, step);
    case FailReconnect(r) => ReconnectUnshared(s, r, step);
    case Replace(r) => ReplaceUnshared(s, r);
    case _ =>
      CallsMove(s, step);
      StillUnshared(s, Apply(s, step).value);
  }

  lemma {:induction false} RunUnshared(run: Run, i: nat)
    requires IsRun(run) && i < |run.states|
    ensures Unshared(run.states[i])
  {
    hide Apply;
    if i > 0 {
      RunUnshared(run, i - 1);
      InvariantHolds(run, i - 1);
      StepOfRun(run, i - 1);
      StepUnshared(run.states[i - 1], run.steps[i - 1]);
    }
  }

  /** In every state of every run, no two connections have the same session, none has the one that a reconnect has just
      dialed, and no two share a lock; a lock that a reconnect has or waits for is not another connection's. */
  lemma NothingIsShared(run: Run, i: nat)
    requires IsRun(run) && i < |run.states|
    ensures var s := run.states[i];
            && (forall c, d :: c in s.connections && d in s.connections && c != d
                               ==> && s.connections[c].id != s.connections[d].id
                                   && s.connections[c].lock != s.connections[d].lock)
            && (forall r, c :: r in s.reconnects && c in s.connections && s.reconnects[r].phase.Dialed?
                               ==> s.connections[c].id != s.reconnects[r].phase.handle)
            && (forall r, c :: r in s.reconnects && c in s.connections && s.reconnects[r].connection != c
                               && !s.reconnects[r].phase.Finished?
                               ==> s.connections[c].lock != s.reconnects[r].phase.lock)
  {
    RunUnshared(run, i);
    var s := run.states[i];
    forall c | c in s.connections ensures InstalledAt(s, s.connections[c].lock, c) { assert EntryFits(s, c); }
    forall r | r in s.reconnects ensures ReconnectFits(s, r) { }
  }
}
