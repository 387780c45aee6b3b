/** Which handle stands in the table of connections, over whole runs. */
module ConnectHandles {
  import opened Wrappers
  import opened ConnectTables
  import opened ConnectProtocol
  import opened ConnectSafety

  /** No entry but that of `c` has changed. */
  predicate OthersKept(before: Connections, after: Connections, c: ConnectionId) {
    && before.Keys - {c} == after.Keys - {c}
    && forall d :: d in before && d != c ==> d in after && after[d] == before[d]
  }

  /** An install leaves the handle that the call's own task delivered, with a lock of its own; the generation is 0 in a
      new entry and one more than before in an old one. */
  lemma InstallLeavesTheDelivered(run: Run, i: nat, a: AttemptId)
    requires IsRun(run) && i < |run.steps| && run.steps[i] == Install(a)
    ensures a in run.states[i].attempts && run.states[i].attempts[a].task.Delivered?
    ensures var before, after := run.states[i].connections, run.states[i + 1].connections;
            var c, h := run.states[i].attempts[a].connection, run.states[i].attempts[a].task.handle;
            && c in after && after[c].id == h && after[c].lock == h
            && after[c].generation == (if c in before then (before[c].generation + 1) % 0x1_0000_0000_0000_0000 else 0)
            && OthersKept(before, after, c)
    ensures a in run.states[i + 1].attempts
    ensures run.states[i + 1].attempts[a].phase == Returned(Installed(run.states[i].attempts[a].task.handle))
  {
    InvariantHolds(run, i);
    StepOfRun(run, i);
    assert HandleAgrees(run.states[i], a);
  }

  /** A reconnect that finds the generation it read leaves the handle it dialed, under the lock it holds; any other one
      leaves the table as it is. */
  lemma ReplaceLeavesTheDialed(run: Run, i: nat, r: ReconnectId)
    requires IsRun(run) && i < |run.steps| && run.steps[i] == Replace(r)
    ensures r in run.states[i].reconnects && run.states[i].reconnects[r].phase.Dialed?
    ensures var before, after := run.states[i].connections, run.states[i + 1].connections;
            var c, dialed := run.states[i].reconnects[r].connection, run.states[i].reconnects[r].phase;
            if c in before && before[c].generation == dialed.expected then
              && c in after && after[c].id == dialed.handle && after[c].lock == dialed.lock
              && after[c].generation == (dialed.expected + 1) % 0x1_0000_0000_0000_0000
              && OthersKept(before, after, c)
            else after == before
    ensures var before := run.states[i].connections;
            var c, dialed := run.states[i].reconnects[r].connection, run.states[i].reconnects[r].phase;
            && (ReplaceVerdict(before, c, dialed.expected) == Replaced
                <==> c in before && before[c].generation == dialed.expected)
            && (ReplaceVerdict(before, c, dialed.expected) == DisconnectedDuringReconnect <==> c !in before)
  {
    StepOfRun(run, i);
  }

  /** The handle that step `k` puts into the entry of `c`, if it does. */
  ghost function PutBy(run: Run, k: nat, c: ConnectionId): Option<HandleId>
    requires IsRun(run) && k < |run.steps|
  {
    var s, step := run.states[k], run.steps[k];
    if step.Install? && step.attempt in s.attempts && s.attempts[step.attempt].connection == c
       && s.attempts[step.attempt].task.Delivered? then Some(s.attempts[step.attempt].task.handle)
    else if step.Replace? && step.reconnect in s.reconnects && s.reconnects[step.reconnect].connection == c
            && s.reconnects[step.reconnect].phase.Dialed? && c in s.connections
            && s.connections[c].generation == s.reconnects[step.reconnect].phase.expected
    then Some(s.reconnects[step.reconnect].phase.handle)
    else None
  }

  ghost predicate RemovedBy(run: Run, k: nat, c: ConnectionId)
    requires IsRun(run) && k < |run.steps|
  {
    run.steps[k].Disconnect? && c in run.steps[k].ids
  }

  /** Step `k` is the last one before the state `i` that put a handle into the entry of `c` or removed the entry. */
  ghost predicate IsLastOn(run: Run, k: nat, i: nat, c: ConnectionId)
    requires IsRun(run) && i < |run.states|
  {
    && k < i && (PutBy(run, k, c).Some? || RemovedBy(run, k, c))
    && forall l :: k < l < i ==> PutBy(run, l, c) == None && !RemovedBy(run, l, c)
  }

  lemma EntryAfterStep(run: Run, k: nat, c: ConnectionId)
    requires IsRun(run) && k < |run.steps|
    ensures PutBy(run, k, c).Some?
            ==> c in run.states[k + 1].connections && run.states[k + 1].connections[c].id == PutBy(run, k, c).value
    ensures RemovedBy(run, k, c) ==> c !in run.states[k + 1].connections
    ensures PutBy(run, k, c).None? && !RemovedBy(run, k, c)
            ==> && (c in run.states[k + 1].connections <==> c in run.states[k].connections)
                && (c in run.states[k].connections
                    ==> run.states[k + 1].connections[c] == run.states[k].connections[c])
  {
    StepOfRun(run, k);
    var step := run.steps[k];
    if step.Install? {
      InstallLeavesTheDelivered(run, k, step.attempt);
    } else if step.Replace? {
      ReplaceLeavesTheDialed(run, k, step.reconnect);
    } else {
      ConnectionsKept(run.states[k], step);
    }
  }

  lemma ConnectionsKept(s: State, step: Step)
    requires Apply(s, step).Some? && !step.Install? && !step.Replace?
    ensures Apply(s, step).value.connections == if step.Disconnect? then s.connections - step.ids else s.connections
  {
  }

  /** The connection is in the table exactly if a handle was put into its entry after it was last removed, and the
      handle that stands there is the last one put. */
  ghost predicate IsLatest(run: Run, i: nat, c: ConnectionId)
    requires IsRun(run) && i < |run.states|
  {
    var connections := run.states[i].connections;
    && (c in connections <==> exists k :: 0 <= k < i && IsLastOn(run, k, i, c) && PutBy(run, k, c).Some?)
    && (forall k :: 0 <= k < i && IsLastOn(run, k, i, c) && PutBy(run, k, c).Some?
                    ==> c in connections && connections[c].id == PutBy(run, k, c).value)
  }

  lemma {:induction false} EntryIsTheLatest(run: Run, i: nat, c: ConnectionId)
    requires IsRun(run) && i < |run.states|
    ensures IsLatest(run, i, c)
  {
    hide Apply;
    if i > 0 {
      var j := i - 1;
      EntryIsTheLatest(run, j, c);
      EntryAfterStep(run, j, c);
      hide PutBy, RemovedBy;
      if PutBy(run, j, c).Some? || RemovedBy(run, j, c) {
        assert IsLastOn(run, j, i, c);
        OnlyOneIsLast(run, j, i, c);
      } else {
        StillLast(run, i, c);
      }
    }
  }

  lemma OnlyOneIsLast(run: Run, j: nat, i: nat, c: ConnectionId)
    requires IsRun(run) && i < |run.states| && IsLastOn(run, j, i, c)
    ensures forall k :: 0 <= k < i && IsLastOn(run, k, i, c) ==> k == j
  {
    hide PutBy, RemovedBy;
  }

  lemma StillLast(run: Run, i: nat, c: ConnectionId)
    requires IsRun(run) && 0 < i < |run.states| && PutBy(run, i - 1, c) == None && !RemovedBy(run, i - 1, c)
    ensures forall k :: 0 <= k < i ==> (IsLastOn(run, k, i, c) <==> k < i - 1 && IsLastOn(run, k, i - 1, c))
  {
    hide PutBy, RemovedBy;
  }

  /** A reconnect waits for the lock of the entry it finds, and reads the generation that stands there once it has
      it. */
  lemma ReconnectTakesWhatItFinds(run: Run, i: nat, r: ReconnectId)
    requires IsRun(run) && i < |run.steps|
    ensures run.steps[i].BeginReconnect? && run.steps[i].reconnect == r
            && run.steps[i].connection in run.states[i].connections
            ==> var c := run.steps[i].connection;
                r in run.states[i + 1].reconnects
                && run.states[i + 1].reconnects[r] == Reconnect(c, WaitingForLock(run.states[i].connections[c].lock))
    ensures run.steps[i] == ReadGeneration(r)
            ==> && r in run.states[i].reconnects && run.states[i].reconnects[r].phase.LockHeld?
                && r in run.states[i + 1].reconnects
                && var c, lock := run.states[i].reconnects[r].connection, run.states[i].reconnects[r].phase.lock;
                   run.states[i + 1].reconnects[r].phase
                   == if c in run.states[i].connections then Dialing(lock, run.states[i].connections[c].generation)
                      else Finished
  {
    StepOfRun(run, i);
  }
}
