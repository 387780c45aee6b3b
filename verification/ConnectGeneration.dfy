/**
  The reconnect generation. A generation restarts at 0 when a connection is installed after a
  removal, so the statements are about stretches of a run in which it is not removed.
 */
module ConnectGeneration {
  import opened Wrappers
  import opened ConnectTables
  import opened ConnectProtocol
  import opened ConnectSafety

  /** This step puts a new handle into the entry of `c`. */
  predicate InstallsOn(s: State, step: Step, c: ConnectionId) {
    || (step.Install? && step.attempt in s.attempts && s.attempts[step.attempt].connection == c)
    || (step.Replace? && step.reconnect in s.reconnects && s.reconnects[step.reconnect].connection == c
        && s.reconnects[step.reconnect].phase.Dialed?
        && ReplaceVerdict(s.connections, c, s.reconnects[step.reconnect].phase.expected) == Replaced)
  }

  /** The number of handles put into the entry of `c` by steps `i` to `j - 1`. */
  ghost function Installs(run: Run, i: nat, j: nat, c: ConnectionId): nat
    requires IsRun(run) && i <= j < |run.states|
    decreases j
  {
    if i == j then 0
    else Installs(run, i, j - 1, c) + (if InstallsOn(run.states[j - 1], run.steps[j - 1], c) then 1 else 0)
  }

  /** No step from `i` to `j - 1` removes `c`. */
  ghost predicate NeverRemoved(run: Run, i: nat, j: nat, c: ConnectionId)
    requires IsRun(run) && i <= j < |run.states|
  {
    forall k :: i <= k < j ==> !(run.steps[k].Disconnect? && c in run.steps[k].ids)
  }

  lemma StepOnEntry(s: State, step: Step, c: ConnectionId)
    requires Apply(s, step).Some? && c in s.connections
    requires !(step.Disconnect? && c in step.ids)
    ensures c in Apply(s, step).value.connections
    ensures InstallsOn(s, step, c)
            ==> Apply(s, step).value.connections[c].generation == WrappingIncrement(s.connections[c].generation)
    ensures !InstallsOn(s, step, c) ==> Apply(s, step).value.connections[c] == s.connections[c]
  {
  }

  /** Every install raises the generation by one, in 64-bit arithmetic, and nothing else changes it;
      with no install the entry stays exactly the same. */
  lemma {:induction false} GenerationCountsInstalls(run: Run, i: nat, j: nat, c: ConnectionId)
    requires IsRun(run) && i <= j < |run.states| && NeverRemoved(run, i, j, c)
    requires c in run.states[i].connections
    ensures c in run.states[j].connections
    ensures run.states[j].connections[c].generation
         == (run.states[i].connections[c].generation + Installs(run, i, j, c)) % U64_MODULUS
    ensures Installs(run, i, j, c) == 0 ==> run.states[j].connections[c] == run.states[i].connections[c]
    decreases j
  {
    hide Apply;
    if i < j {
      GenerationCountsInstalls(run, i, j - 1, c);
      StepOfRun(run, j - 1);
      StepOnEntry(run.states[j - 1], run.steps[j - 1], c);
      IncrementOfSum(run.states[i].connections[c].generation, Installs(run, i, j - 1, c));
    }
  }

  lemma IncrementOfSum(g: u64, n: nat)
    ensures WrappingIncrement((g + n) % U64_MODULUS) == (g + n + 1) % U64_MODULUS
  {
  }

  /** Below 2^64 installs the generation of a connection that stays in the table only ever goes up, and
      strictly at each install, unless the counter passes its maximum. */
  lemma GenerationStrictlyRises(run: Run, i: nat, j: nat, c: ConnectionId)
    requires IsRun(run) && i <= j < |run.states| && NeverRemoved(run, i, j, c)
    requires c in run.states[i].connections
    requires run.states[i].connections[c].generation + Installs(run, i, j, c) < U64_MODULUS
    ensures c in run.states[j].connections
    ensures run.states[j].connections[c].generation
         == run.states[i].connections[c].generation + Installs(run, i, j, c)
  {
    hide Installs, Apply;
    GenerationCountsInstalls(run, i, j, c);
    SmallSum(run.states[i].connections[c].generation + Installs(run, i, j, c));
  }

  lemma SmallSum(n: nat)
    requires n < U64_MODULUS
    ensures n % U64_MODULUS == n
  {
  }

  /** The reconnect is between reading the generation and its final check, or done. */
  predicate Expects(s: State, r: ReconnectId, c: ConnectionId, expected: u64) {
    && r in s.reconnects && s.reconnects[r].connection == c
    && (s.reconnects[r].phase.Dialing? || s.reconnects[r].phase.Dialed? ==> s.reconnects[r].phase.expected == expected)
    && !s.reconnects[r].phase.WaitingForLock? && !s.reconnects[r].phase.LockHeld?
  }

  lemma {:induction false} ExpectationStays(run: Run, i: nat, j: nat, r: ReconnectId, c: ConnectionId, expected: u64)
    requires IsRun(run) && i <= j < |run.states| && Expects(run.states[i], r, c, expected)
    ensures Expects(run.states[j], r, c, expected)
    decreases j
  {
    hide Apply;
    if i < j {
      ExpectationStays(run, i, j - 1, r, c, expected);
      StepOfRun(run, j - 1);
      ExpectationKept(run.states[j - 1], run.steps[j - 1], r, c, expected);
    }
  }

  lemma ExpectationKept(s: State, step: Step, r: ReconnectId, c: ConnectionId, expected: u64)
    requires Expects(s, r, c, expected) && Apply(s, step).Some?
    ensures Expects(Apply(s, step).value, r, c, expected)
  {
    hide BeginStep, ResolveStep, FailPrepareStep, CheckPreparedStep, PublishStep, DeliverStep, EndTaskStep, JoinStep,
      TakeOwnershipStep, InstallStep, DiscardStep, CancelStep;
    ReconnectsKept(s, step);
  }

  /** The connection `c`, the read at step `i` and the final check at step `j` of reconnect `r`. */
  ghost predicate ReadThenReplace(run: Run, i: nat, j: nat, r: ReconnectId, c: ConnectionId) {
    && IsRun(run) && i < j < |run.steps|
    && run.steps[i] == ReadGeneration(r) && run.steps[j] == Replace(r)
    && r in run.states[i].reconnects && run.states[i].reconnects[r].connection == c
    && c in run.states[i].connections
    && NeverRemoved(run, i, j, c)
  }

  /** A reconnect's check succeeds if and only if the number of handles installed since its read is a
      multiple of 2^64, whatever lock objects the reconnects of this connection hold. */
  lemma ReconnectIsCompareAndSwap(run: Run, i: nat, j: nat, r: ReconnectId, c: ConnectionId)
    requires ReadThenReplace(run, i, j, r, c)
    ensures InstallsOn(run.states[j], Replace(r), c) <==> Installs(run, i, j, c) % U64_MODULUS == 0
  {
    StepOfRun(run, i);
    StepOfRun(run, j);
    var expected := run.states[i].connections[c].generation;
    assert Expects(run.states[i + 1], r, c, expected);
    ExpectationStays(run, i + 1, j, r, c, expected);
    GenerationCountsInstalls(run, i, j, c);
    SumWraps(expected, Installs(run, i, j, c));
  }

  lemma SumWraps(g: u64, n: nat)
    ensures (g + n) % U64_MODULUS == g <==> n % U64_MODULUS == 0
  {
  }

  /** Below 2^64 installs a reconnect never overwrites a handle installed after its read: either it replaces
      the very handle it read, or it leaves the table as it is. */
  lemma ReconnectReplacesWhatItRead(run: Run, i: nat, j: nat, r: ReconnectId, c: ConnectionId)
    requires ReadThenReplace(run, i, j, r, c) && Installs(run, i, j, c) < U64_MODULUS
    ensures c in run.states[j].connections && Expects(run.states[j], r, c, run.states[i].connections[c].generation)
    ensures run.states[j].reconnects[r].phase.Dialed?
    ensures Installs(run, i, j, c) == 0
            ==> && run.states[j].connections[c] == run.states[i].connections[c]
                && c in run.states[j + 1].connections
                && run.states[j + 1].connections[c].id == run.states[j].reconnects[r].phase.handle
    ensures Installs(run, i, j, c) > 0 ==> run.states[j + 1].connections == run.states[j].connections
  {
    StepOfRun(run, i);
    StepOfRun(run, j);
    var expected := run.states[i].connections[c].generation;
    assert Expects(run.states[i + 1], r, c, expected);
    ExpectationStays(run, i + 1, j, r, c, expected);
    ReconnectIsCompareAndSwap(run, i, j, r, c);
    GenerationCountsInstalls(run, i, j, c);
  }

  /** Two reconnects that have both read their generation cannot hold the same lock object. */
  lemma SameLockExcludes(run: Run, i: nat, r: ReconnectId, r': ReconnectId, lock: HandleId)
    requires IsRun(run) && i < |run.states|
    requires r in run.states[i].reconnects && r' in run.states[i].reconnects
    requires HoldsLock(run.states[i].reconnects[r], lock) && HoldsLock(run.states[i].reconnects[r'], lock)
    ensures r == r'
  {
    InvariantHolds(run, i);
  }
}
