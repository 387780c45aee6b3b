/**
  The two lock-protected tables of `AppState` that the SSH commands share:
  `connect_tasks` (one slot per connection id) and `connections` (the live handles).

  Every function below is the whole effect of one block of code that runs while the
  table's mutex is held; class `AppState` contains the blocks themselves.
 */
module ConnectTables {
  import opened Wrappers

  type ConnectionId = string
  type AttemptId = string
  type HandleId = nat

  const U64_MODULUS: nat := 0x1_0000_0000_0000_0000

  type u64 = x: int | 0 <= x < U64_MODULUS

  /** `wrapping_add(1)` on a 64-bit counter. */
  function WrappingIncrement(x: u64): u64 {
    (x + 1) % U64_MODULUS
  }

  /** A slot of `connect_tasks`. The value of the `cancel` watch channel is kept in the slot
      that owns its sender; the abort handle of a connecting task is named by its attempt. */
  datatype ConnectAttempt =
    | Preparing(attemptId: AttemptId, cancelled: bool)
    | Connecting(attemptId: AttemptId)

  /** A live connection. `lock` names the `reconnect_lock` object by the handle it was created with. */
  datatype ConnectionHandle = ConnectionHandle(id: HandleId, generation: u64, lock: HandleId)

  type ConnectTasks = map<ConnectionId, ConnectAttempt>
  type Connections = map<ConnectionId, ConnectionHandle>

  /** What a block tells the attempt that entered it. */
  datatype Verdict = Proceed | Cancelled | Superseded | Failed

  datatype ReplaceOutcome = Replaced | ChangedDuringReconnect | DisconnectedDuringReconnect

  /** The slot of `c` belongs to attempt `a` and is still in preparation. */
  predicate IsPreparing(tasks: ConnectTasks, c: ConnectionId, a: AttemptId) {
    c in tasks && tasks[c].Preparing? && tasks[c].attemptId == a
  }

  predicate IsConnecting(tasks: ConnectTasks, c: ConnectionId, a: AttemptId) {
    c in tasks && tasks[c].Connecting? && tasks[c].attemptId == a
  }

  /** `ssh_cancel_connect` with this optional attempt id applies to the slot of `c`. */
  predicate CancelMatches(tasks: ConnectTasks, c: ConnectionId, which: Option<AttemptId>) {
    c in tasks && (which.Some? ==> which.value == tasks[c].attemptId)
  }

  function AfterRegister(tasks: ConnectTasks, c: ConnectionId, a: AttemptId): ConnectTasks {
    tasks[c := Preparing(a, false)]
  }

  /** The task that registering a new attempt for `c` aborts. */
  function AbortedByRegister(tasks: ConnectTasks, c: ConnectionId): Option<AttemptId> {
    if c in tasks && tasks[c].Connecting? then Some(tasks[c].attemptId) else None
  }

  /** Preparation failed; `sawCancel` says that the failure was the cancellation itself. */
  function FailPrepareVerdict(tasks: ConnectTasks, c: ConnectionId, a: AttemptId, sawCancel: bool): Verdict {
    if !IsPreparing(tasks, c, a) then Superseded
    else if tasks[c].cancelled || sawCancel then Cancelled
    else Failed
  }

  function AfterFailPrepare(tasks: ConnectTasks, c: ConnectionId, a: AttemptId): ConnectTasks {
    if IsPreparing(tasks, c, a) then tasks - {c} else tasks
  }

  /** The verdict of both checks made on a slot in preparation, before and after the task is spawned. */
  function PreparedVerdict(tasks: ConnectTasks, c: ConnectionId, a: AttemptId): Verdict {
    if !IsPreparing(tasks, c, a) then Superseded
    else if tasks[c].cancelled then Cancelled
    else Proceed
  }

  function AfterCheckPrepared(tasks: ConnectTasks, c: ConnectionId, a: AttemptId): ConnectTasks {
    if PreparedVerdict(tasks, c, a) == Cancelled then tasks - {c} else tasks
  }

  function AfterPublish(tasks: ConnectTasks, c: ConnectionId, a: AttemptId): ConnectTasks {
    match PreparedVerdict(tasks, c, a)
    case Proceed => tasks[c := Connecting(a)]
    case Cancelled => tasks - {c}
    case _ => tasks
  }

  function AfterTakeOwnership(tasks: ConnectTasks, c: ConnectionId, a: AttemptId): ConnectTasks {
    if IsConnecting(tasks, c, a) then tasks - {c} else tasks
  }

  function AfterCancel(tasks: ConnectTasks, c: ConnectionId, which: Option<AttemptId>): ConnectTasks {
    if !CancelMatches(tasks, c, which) then tasks
    else if tasks[c].Preparing? then tasks[c := Preparing(tasks[c].attemptId, true)]
    else tasks - {c}
  }

  function AbortedByCancel(tasks: ConnectTasks, c: ConnectionId, which: Option<AttemptId>): Option<AttemptId> {
    if CancelMatches(tasks, c, which) && tasks[c].Connecting? then Some(tasks[c].attemptId) else None
  }

  function AfterInstall(connections: Connections, c: ConnectionId, incoming: HandleId): Connections {
    var generation := if c in connections then WrappingIncrement(connections[c].generation) else 0;
    connections[c := ConnectionHandle(incoming, generation, incoming)]
  }

  function ReplaceVerdict(connections: Connections, c: ConnectionId, expected: u64): ReplaceOutcome {
    if c !in connections then DisconnectedDuringReconnect
    else if connections[c].generation == expected then Replaced
    else ChangedDuringReconnect
  }

  function AfterReplace(connections: Connections, c: ConnectionId, expected: u64,
                        incoming: HandleId, lock: HandleId): Connections {
    if ReplaceVerdict(connections, c, expected) == Replaced
    then connections[c := ConnectionHandle(incoming, WrappingIncrement(expected), lock)]
    else connections
  }
}
