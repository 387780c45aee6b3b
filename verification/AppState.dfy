/**
  The lock-held blocks of `ssh_connect`, `ssh_cancel_connect`, `ssh_disconnect` and
  `reconnect_stored_connection`, each as one method on the shared tables.
 */
module AppStateModel {
  import opened Wrappers
  import opened ConnectTables

  class AppState {
    var connectTasks: ConnectTasks
    var connections: Connections

    constructor ()
      ensures connectTasks == map[] && connections == map[]
    {
      connectTasks := map[];
      connections := map[];
    }

    method RegisterAttempt(c: ConnectionId, a: AttemptId) returns (aborted: Option<AttemptId>)
      modifies this`connectTasks
      ensures connectTasks == AfterRegister(old(connectTasks), c, a)
      ensures aborted == AbortedByRegister(old(connectTasks), c)
    {
      aborted := None;
      if c in connectTasks {
        var previous := connectTasks[c];
        if previous.Connecting? {
          aborted := Some(previous.attemptId);
        }
      }
      connectTasks := connectTasks[c := Preparing(a, false)];
    }

    method FailPrepare(c: ConnectionId, a: AttemptId, sawCancel: bool) returns (verdict: Verdict)
      modifies this`connectTasks
      ensures connectTasks == AfterFailPrepare(old(connectTasks), c, a)
      ensures verdict == FailPrepareVerdict(old(connectTasks), c, a, sawCancel)
    {
      if c in connectTasks {
        var slot := connectTasks[c];
        if slot.Preparing? && slot.attemptId == a {
          connectTasks := connectTasks - {c};
          if slot.cancelled || sawCancel {
            return Cancelled;
          }
          return Failed;
        }
      }
      return Superseded;
    }

    method CheckPrepared(c: ConnectionId, a: AttemptId) returns (verdict: Verdict)
      modifies this`connectTasks
      ensures connectTasks == AfterCheckPrepared(old(connectTasks), c, a)
      ensures verdict == PreparedVerdict(old(connectTasks), c, a)
    {
      if c in connectTasks {
        var slot := connectTasks[c];
        if slot.Preparing? && slot.attemptId == a {
          if slot.cancelled {
            connectTasks := connectTasks - {c};
            return Cancelled;
          }
          return Proceed;
        }
      }
      return Superseded;
    }

    method PublishTask(c: ConnectionId, a: AttemptId) returns (verdict: Verdict)
      modifies this`connectTasks
      ensures connectTasks == AfterPublish(old(connectTasks), c, a)
      ensures verdict == PreparedVerdict(old(connectTasks), c, a)
    {
      if c in connectTasks {
        var slot := connectTasks[c];
        if slot.Preparing? && slot.attemptId == a {
          if slot.cancelled {
            connectTasks := connectTasks - {c};
            return Cancelled;
          }
          connectTasks := connectTasks[c := Connecting(a)];
          return Proceed;
        }
      }
      return Superseded;
    }

    method TakeOwnership(c: ConnectionId, a: AttemptId) returns (owns: bool)
      modifies this`connectTasks
      ensures connectTasks == AfterTakeOwnership(old(connectTasks), c, a)
      ensures owns == IsConnecting(old(connectTasks), c, a)
    {
      owns := false;
      if c in connectTasks {
        var slot := connectTasks[c];
        owns := slot.Connecting? && slot.attemptId == a;
      }
      if owns {
        connectTasks := connectTasks - {c};
      }
    }

    method CancelConnect(c: ConnectionId, which: Option<AttemptId>) returns (aborted: Option<AttemptId>)
      modifies this`connectTasks
      ensures connectTasks == AfterCancel(old(connectTasks), c, which)
      ensures aborted == AbortedByCancel(old(connectTasks), c, which)
    {
      aborted := None;
      if c in connectTasks {
        var slot := connectTasks[c];
        if which.None? || which.value == slot.attemptId {
          match slot {
            case Preparing(active, _) =>
              connectTasks := connectTasks[c := Preparing(active, true)];
            case Connecting(active) =>
              connectTasks := connectTasks - {c};
              aborted := Some(active);
          }
        }
      }
    }

    method Install(c: ConnectionId, incoming: HandleId)
      modifies this`connections
      ensures connections == AfterInstall(old(connections), c, incoming)
    {
      var generation: u64 := 0;
      if c in connections {
        generation := WrappingIncrement(connections[c].generation);
      }
      connections := connections[c := ConnectionHandle(incoming, generation, incoming)];
    }

    method Disconnect(ids: set<ConnectionId>)
      modifies this`connections
      ensures connections == old(connections) - ids
    {
      connections := connections - ids;
    }

    method ReconnectLock(c: ConnectionId) returns (lock: Option<HandleId>)
      ensures lock == if c in connections then Some(connections[c].lock) else None
    {
      if c in connections {
        return Some(connections[c].lock);
      }
      return None;
    }

    method ExpectedGeneration(c: ConnectionId) returns (generation: Option<u64>)
      ensures generation == if c in connections then Some(connections[c].generation) else None
    {
      if c in connections {
        return Some(connections[c].generation);
      }
      return None;
    }

    method ReplaceIfUnchanged(c: ConnectionId, expected: u64, incoming: HandleId, lock: HandleId)
      returns (outcome: ReplaceOutcome)
      modifies this`connections
      ensures connections == AfterReplace(old(connections), c, expected, incoming, lock)
      ensures outcome == ReplaceVerdict(old(connections), c, expected)
    {
      if c !in connections {
        return DisconnectedDuringReconnect;
      }
      if connections[c].generation != expected {
        return ChangedDuringReconnect;
      }
      connections := connections[c := ConnectionHandle(incoming, WrappingIncrement(expected), lock)];
      return Replaced;
    }
  }
}
