/** Which steps can be taken: commands are never refused, outcomes are open, and a reconnect gets on. */
module ConnectProgress {
  import opened Wrappers
  import opened ConnectTables
  import opened ConnectProtocol

  /** Any call with a new identifier can begin at any time, whatever stands in the tables, and so can a cancel and a
      disconnect. */
  lemma CommandsAreTaken(s: State, a: AttemptId, c: ConnectionId, which: Option<AttemptId>, ids: set<ConnectionId>,
                         r: ReconnectId)
    ensures Apply(s, Begin(a, c)).Some? <==> a !in s.attempts
    ensures Apply(s, Cancel(c, which)).Some? && Apply(s, Disconnect(ids)).Some?
    ensures Apply(s, BeginReconnect(r, c)).Some? <==> r !in s.reconnects
  {
  }

  /** While a call resolves and while its task runs, every outcome is possible. */
  lemma OutcomesAreOpen(s: State, a: AttemptId, ok: bool, sawCancel: bool, h: HandleId)
    ensures Apply(s, Resolve(a, ok, sawCancel)).Some? <==> a in s.attempts && s.attempts[a].phase == Resolving
    ensures Apply(s, TaskDelivers(a, h)).Some?
       <==> a in s.attempts && s.attempts[a].task == Running && h !in s.usedHandles
    ensures Apply(s, TaskFails(a)).Some? <==> a in s.attempts && s.attempts[a].task == Running
    ensures Apply(s, TaskAborts(a)).Some?
       <==> a in s.attempts && s.attempts[a].task == Running && s.attempts[a].abortRequested
  {
  }

  // ----- Reconnects -----

  /** How many steps of its own a reconnect has left. */
  function Remaining(phase: ReconnectPhase): nat {
    match phase
    case WaitingForLock(_) => 4
    case LockHeld(_) => 3
    case Dialing(_, _) => 2
    case Dialed(_, _, _) => 1
    case Finished => 0
  }

  function OwnStep(phase: ReconnectPhase, r: ReconnectId): Step
    requires phase != Finished
  {
    match phase
    case WaitingForLock(_) => AcquireLock(r)
    case LockHeld(_) => ReadGeneration(r)
    case Dialing(_, _) => FailReconnect(r)
    case Dialed(_, _, _) => Replace(r)
  }

  predicate IsReconnectStep(step: Step, r: ReconnectId) {
    && (step.AcquireLock? || step.ReadGeneration? || step.Dial? || step.FailReconnect? || step.Replace?)
    && step.reconnect == r
  }

  /** A reconnect that is not finished can take its next step, or waits for a lock whose holder can take its own;
      dialing can come to any new handle. */
  lemma ReconnectIsNeverStuck(s: State, r: ReconnectId, h: HandleId)
    requires r in s.reconnects && s.reconnects[r].phase != Finished
    ensures || Apply(s, OwnStep(s.reconnects[r].phase, r)).Some?
            || (&& s.reconnects[r].phase.WaitingForLock?
                && exists r' :: && r' in s.reconnects && HoldsLock(s.reconnects[r'], s.reconnects[r].phase.lock)
                                && s.reconnects[r'].phase != Finished
                                && Apply(s, OwnStep(s.reconnects[r'].phase, r')).Some?)
    ensures s.reconnects[r].phase.Dialing? ==> (Apply(s, Dial(r, h)).Some? <==> h !in s.usedHandles)
  {
    var phase := s.reconnects[r].phase;
    if phase.WaitingForLock? && !LockFree(s, phase.lock) {
      var r' :| r' in s.reconnects && HoldsLock(s.reconnects[r'], phase.lock);
      assert Apply(s, OwnStep(s.reconnects[r'].phase, r')).Some?;
    }
  }

  /** Every step of a reconnect brings it nearer to its end, and no other step touches it. */
  lemma ReconnectStepsEnd(s: State, step: Step, r: ReconnectId)
    requires r in s.reconnects && Apply(s, step).Some?
    ensures r in Apply(s, step).value.reconnects
    ensures var before, after := s.reconnects[r].phase, Apply(s, step).value.reconnects[r].phase;
            if IsReconnectStep(step, r) then Remaining(after) < Remaining(before) else after == before
  {
  }

  /** What a reconnect dials is what it puts into the table, under the lock and the generation it holds. */
  lemma DialKeepsWhatItHolds(s: State, r: ReconnectId, h: HandleId)
    requires Apply(s, Dial(r, h)).Some?
    ensures r in s.reconnects && s.reconnects[r].phase.Dialing?
    ensures var s' := Apply(s, Dial(r, h)).value;
            && r in s'.reconnects && s'.connections == s.connections
            && s'.reconnects[r].phase == Dialed(s.reconnects[r].phase.lock, s.reconnects[r].phase.expected, h)
  {
  }
}
