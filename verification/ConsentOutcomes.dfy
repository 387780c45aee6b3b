/** What becomes of a request: why it was refused, and that an allowed one is signed, over whole runs. */
module ConsentOutcomes {
  import opened Wrappers
  import opened ConsentProtocol
  import opened ConsentSafety

  // ----- What has happened to a request -----

  /** At step `k` the request receives this answer of the user. */
  ghost predicate Receives(run: Run, k: nat, r: RequestId, d: Decision)
    requires IsRun(run) && k < |run.steps|
  {
    run.steps[k] == Receive(r) && AnsweredWith(run.states[k], r, d)
  }

  ghost predicate Received(run: Run, i: nat, r: RequestId, d: Decision)
    requires IsRun(run) && i < |run.states|
  {
    exists k :: 0 <= k < i && Receives(run, k, r, d)
  }

  /** The prompt ran out, could not be shown, or there was no window to show it in. */
  predicate Expires(s: State, step: Step, r: RequestId) {
    || step == TimeOut(r) || step == Emit(r, false)
    || (step == CheckFlag(r, false) && r in s.requests && s.requests[r].agent !in s.allowSession)
  }

  ghost predicate HasExpired(run: Run, i: nat, r: RequestId)
    requires IsRun(run) && i < |run.states|
  {
    exists k :: 0 <= k < i && Expires(run.states[k], run.steps[k], r)
  }

  ghost predicate HasSigned(run: Run, i: nat, r: RequestId, ok: bool)
    requires IsRun(run) && i < |run.states|
  {
    exists k :: 0 <= k < i && run.steps[k] == Sign(r, ok)
  }

  // ----- One step -----

  /** What the phase of a request says about what has happened to it: it received this answer, expired, was signed or
      could not be signed. */
  datatype Past = Past(deny: bool, once: bool, session: bool, expired: bool, signed: bool, failed: bool)

  predicate PhaseTells(s: State, r: RequestId, past: Past) {
    if r !in s.requests then past == Past(false, false, false, false, false, false)
    else
      var phase := s.requests[r].phase;
      && (past.deny <==> phase == Answered(Deny) || phase == Decided(Deny)
                         || (phase == Replied(Failure) && !past.failed))
      && (past.expired <==> phase == Answered(Expired) || phase == Decided(Expired) || phase == Replied(NoReply))
      && (past.signed <==> phase == Replied(Signature)) && (past.failed ==> phase == Replied(Failure))
      && (phase == Answered(AllowOnce) || phase == Decided(AllowOnce) ==> past.once)
      && (past.once ==> phase == Answered(AllowOnce) || phase == Decided(AllowOnce) || phase == Signing
                        || past.signed || past.failed)
      && (phase == Answered(AllowSession) ==> past.session)
      && (past.session ==> phase == Answered(AllowSession) || phase == Decided(AllowSession) || phase == Signing
                           || past.signed || past.failed)
  }

  function PastAfter(s: State, step: Step, r: RequestId, past: Past): Past {
    Past(past.deny || (step == Receive(r) && AnsweredWith(s, r, Deny)),
         past.once || (step == Receive(r) && AnsweredWith(s, r, AllowOnce)),
         past.session || (step == Receive(r) && AnsweredWith(s, r, AllowSession)),
         past.expired || Expires(s, step, r),
         past.signed || step == Sign(r, true),
         past.failed || step == Sign(r, false))
  }

  lemma TellsUpToPrompt(s: State, step: Step, r: RequestId, past: Past)
    requires step.Arrive? || step.LoadFlag? || step.Enter? || step.CheckFlag? || step.InsertPending? || step.Emit?
    requires Apply(s, step).Some? && PhaseTells(s, r, past)
    ensures PhaseTells(Apply(s, step).value, r, PastAfter(s, step, r, past))
  {
  }

  lemma TellsAtAnswer(s: State, step: Step, r: RequestId, past: Past)
    requires step.UserResponds? || step.Receive? || step.TimeOut? || step.Leave?
    requires Invariant(s) && Apply(s, step).Some? && PhaseTells(s, r, past)
    ensures PhaseTells(Apply(s, step).value, r, PastAfter(s, step, r, past))
  {
  }

  lemma TellsAtDecision(s: State, step: Step, r: RequestId, past: Past)
    requires step.ActOnDecision? || step.Sign?
    requires Apply(s, step).Some? && PhaseTells(s, r, past)
    ensures PhaseTells(Apply(s, step).value, r, PastAfter(s, step, r, past))
  {
  }

  lemma TellsAfterStep(s: State, step: Step, r: RequestId, past: Past)
    requires Invariant(s) && Apply(s, step).Some? && PhaseTells(s, r, past)
    ensures PhaseTells(Apply(s, step).value, r, PastAfter(s, step, r, past))
  {
    hide Invariant, Apply, PhaseTells, PastAfter;
    if step.ActOnDecision? || step.Sign? {
      TellsAtDecision(s, step, r, past);
    } else if step.UserResponds? || step.Receive? || step.TimeOut? || step.Leave? {
      TellsAtAnswer(s, step, r, past);
    } else {
      TellsUpToPrompt(s, step, r, past);
    }
  }

  // ----- Over a run -----

  ghost function PastOf(run: Run, i: nat, r: RequestId): Past
    requires IsRun(run) && i < |run.states|
  {
    Past(Received(run, i, r, Deny), Received(run, i, r, AllowOnce), Received(run, i, r, AllowSession),
         HasExpired(run, i, r), HasSigned(run, i, r, true), HasSigned(run, i, r, false))
  }

  lemma ReceivedOneStepMore(run: Run, i: nat, r: RequestId, d: Decision)
    requires IsRun(run) && 0 < i < |run.states|
    ensures Received(run, i, r, d) <==> Received(run, i - 1, r, d) || Receives(run, i - 1, r, d)
  {
    hide Receives;
    if Received(run, i - 1, r, d) {
      var k :| 0 <= k < i - 1 && Receives(run, k, r, d);
      assert Receives(run, k, r, d);
    }
  }

  lemma ExpiredOneStepMore(run: Run, i: nat, r: RequestId)
    requires IsRun(run) && 0 < i < |run.states|
    ensures HasExpired(run, i, r) <==> HasExpired(run, i - 1, r) || Expires(run.states[i - 1], run.steps[i - 1], r)
  {
    hide Expires;
    if HasExpired(run, i - 1, r) {
      var k :| 0 <= k < i - 1 && Expires(run.states[k], run.steps[k], r);
      assert Expires(run.states[k], run.steps[k], r);
    }
  }

  lemma SignedOneStepMore(run: Run, i: nat, r: RequestId, ok: bool)
    requires IsRun(run) && 0 < i < |run.states|
    ensures HasSigned(run, i, r, ok) <==> HasSigned(run, i - 1, r, ok) || run.steps[i - 1] == Sign(r, ok)
  {
    if HasSigned(run, i - 1, r, ok) {
      var k :| 0 <= k < i - 1 && run.steps[k] == Sign(r, ok);
      assert run.steps[k] == Sign(r, ok);
    }
  }

  lemma {:induction false} PhaseTellsPast(run: Run, i: nat, r: RequestId)
    requires IsRun(run) && i < |run.states|
    ensures PhaseTells(run.states[i], r, PastOf(run, i, r))
  {
    hide Apply, Received, HasExpired, HasSigned, Expires, PhaseTells, AnsweredWith;
    if i == 0 {
      NothingHappened(run, r);
    } else {
      PhaseTellsPast(run, i - 1, r);
      InvariantHolds(run, i - 1);
      StepOfRun(run, i - 1);
      TellsAfterStep(run.states[i - 1], run.steps[i - 1], r, PastOf(run, i - 1, r));
      ReceivedOneStepMore(run, i, r, Deny);
      ReceivedOneStepMore(run, i, r, AllowOnce);
      ReceivedOneStepMore(run, i, r, AllowSession);
      ExpiredOneStepMore(run, i, r);
      SignedOneStepMore(run, i, r, true);
      SignedOneStepMore(run, i, r, false);
    }
  }

  lemma NothingHappened(run: Run, r: RequestId)
    requires IsRun(run)
    ensures PhaseTells(run.states[0], r, PastOf(run, 0, r))
  {
  }

  /** The reply has its reason: a signature was made, signing failed or the user's denial was received, or the prompt
      ran out or could not be shown; each reply exactly for its own reason. */
  ghost predicate IsExplained(run: Run, i: nat, r: RequestId)
    requires IsRun(run) && i < |run.states| && HasReplied(run.states[i], r)
  {
    var reply := run.states[i].requests[r].phase.reply;
    && (reply == Signature <==> HasSigned(run, i, r, true))
    && (reply == Failure <==> Received(run, i, r, Deny) || HasSigned(run, i, r, false))
    && (reply == NoReply <==> HasExpired(run, i, r))
  }

  lemma ReplyIsExplained(run: Run, i: nat, r: RequestId)
    requires IsRun(run) && i < |run.states| && HasReplied(run.states[i], r)
    ensures IsExplained(run, i, r)
  {
    hide Received, HasExpired, HasSigned;
    PhaseTellsPast(run, i, r);
  }

  /** A request whose user has allowed it is on its way to signing, or a signature was attempted; it gets no other
      reply. */
  ghost predicate GoesOnToSigning(run: Run, i: nat, r: RequestId)
    requires IsRun(run) && i < |run.states|
  {
    && r in run.states[i].requests
    && var phase := run.states[i].requests[r].phase;
       || phase == Answered(AllowOnce) || phase == Decided(AllowOnce)
       || phase == Answered(AllowSession) || phase == Decided(AllowSession) || phase == Signing
       || (phase == Replied(Signature) && HasSigned(run, i, r, true))
       || (phase == Replied(Failure) && HasSigned(run, i, r, false))
  }

  lemma AllowedIsSigned(run: Run, i: nat, r: RequestId)
    requires IsRun(run) && i < |run.states|
    requires Received(run, i, r, AllowOnce) || Received(run, i, r, AllowSession)
    ensures GoesOnToSigning(run, i, r)
  {
    hide Received, HasExpired, HasSigned;
    PhaseTellsPast(run, i, r);
  }

  /** Acting on a received answer: an allowed request goes on to signing, a denied one fails, an expired one gets no
      reply; the session flag is set exactly by an allow-session. */
  lemma DecisionIsCarriedOut(run: Run, i: nat, r: RequestId)
    requires IsRun(run) && i < |run.steps| && run.steps[i] == ActOnDecision(r)
    ensures r in run.states[i].requests && r in run.states[i + 1].requests
    ensures var before, after := run.states[i], run.states[i + 1];
            var agent, phase := before.requests[r].agent, after.requests[r].phase;
            && (Received(run, i, r, AllowOnce) ==> phase == Signing && after.allowSession == before.allowSession)
            && (Received(run, i, r, AllowSession)
                ==> phase == Signing && after.allowSession == before.allowSession + {agent})
            && (Received(run, i, r, Deny) ==> phase == Replied(Failure) && after.allowSession == before.allowSession)
            && (HasExpired(run, i, r) ==> phase == Replied(NoReply) && after.allowSession == before.allowSession)
            && (phase == Signing || phase == Replied(Failure) || phase == Replied(NoReply))
  {
    hide Received, HasExpired, HasSigned, AnsweredWith;
    PhaseTellsPast(run, i, r);
    StepOfRun(run, i);
  }

  /** A request of an agent allowed for the session goes to signing at once, and one that finds the flag under the gate
      gives the gate back and needs no prompt. */
  lemma AllowedAgentIsNotAsked(run: Run, i: nat, r: RequestId)
    requires IsRun(run) && i < |run.steps|
    ensures run.steps[i] == LoadFlag(r)
            ==> && r in run.states[i].requests && r in run.states[i + 1].requests
                && run.states[i + 1].requests[r].phase
                   == if run.states[i].requests[r].agent in run.states[i].allowSession then Signing else WaitingForGate
    ensures run.steps[i].CheckFlag? && run.steps[i].request == r
            ==> && r in run.states[i].requests && r in run.states[i + 1].requests
                && (run.states[i + 1].requests[r].phase == Registering
                    <==> run.steps[i].hasWindow && run.states[i].requests[r].agent !in run.states[i].allowSession)
                && (run.states[i].requests[r].agent in run.states[i].allowSession
                    ==> run.states[i + 1].requests[r].phase == Decided(AllowSession)
                        && run.states[i + 1].broker.gate == None)
  {
    StepOfRun(run, i);
  }

  // ----- Progress -----

  /** How many steps of its own a request has left at most. */
  function Remaining(phase: Phase): nat {
    match phase
    case Arrived => 9
    case WaitingForGate => 8
    case InGate => 7
    case Registering => 6
    case Emitting => 5
    case Asked => 4
    case Answered(_) => 3
    case Decided(_) => 2
    case Signing => 1
    case Replied(_) => 0
  }

  /** Every step that a request takes brings it nearer to its reply, and no other step takes it further away; with
      `NeverStuck`, every request is replied to within nine steps of its own. */
  lemma StepsLeadToTheReply(run: Run, i: nat, r: RequestId)
    requires IsRun(run) && i < |run.steps| && r in run.states[i].requests
    ensures r in run.states[i + 1].requests
    ensures var before, after := run.states[i].requests[r].phase, run.states[i + 1].requests[r].phase;
            if run.steps[i].request == r && !run.steps[i].UserResponds?
            then Remaining(after) < Remaining(before) <= 9 else after == before
  {
    StepOfRun(run, i);
  }
}
