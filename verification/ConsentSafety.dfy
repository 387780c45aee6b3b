/** What every run of the consent protocol keeps. */
module ConsentSafety {
  import opened Wrappers
  import opened ConsentProtocol

  predicate HoldsGate(phase: Phase) {
    phase.InGate? || phase.Registering? || phase.Emitting? || phase.Asked? || phase.Answered?
  }

  /** The user answered this prompt with this decision. */
  predicate AnsweredWith(s: State, r: RequestId, d: Decision) {
    r in s.broker.answers && s.broker.answers[r] == d
  }

  /** The request may be signed: it was allowed itself, or its agent was allowed for the session. */
  predicate Justified(s: State, r: RequestId)
    requires r in s.requests
  {
    AnsweredWith(s, r, AllowOnce) || s.requests[r].agent in s.allowSession
  }

  /** What the phase of a request says about the answers given so far. */
  predicate RequestAgrees(s: State, r: RequestId)
    requires r in s.requests
  {
    var phase := s.requests[r].phase;
    && (HoldsGate(phase) <==> s.broker.gate == Some(r))
    && (r in s.broker.pending ==> (phase.Emitting? || phase.Asked? || phase.Answered?) && r !in s.broker.answers)
    && (phase.Arrived? || phase.WaitingForGate? || phase.InGate? || phase.Registering? ==> r !in s.broker.answers)
    && (phase.Answered? && phase.decision != Expired ==> AnsweredWith(s, r, phase.decision))
    && (phase.Decided? && phase.decision in {Deny, AllowOnce} ==> AnsweredWith(s, r, phase.decision))
    && (phase.Decided? && phase.decision == AllowSession
        ==> !AnsweredWith(s, r, Deny) && (AnsweredWith(s, r, AllowSession) || s.requests[r].agent in s.allowSession))
    && (phase.Signing? || phase == Replied(Signature) ==> Justified(s, r) && !AnsweredWith(s, r, Deny))
  }

  ghost predicate Invariant(s: State) {
    && (forall r :: r in s.requests ==> RequestAgrees(s, r))
    && (forall r :: r in s.broker.pending ==> r in s.requests)
    && (forall r :: r in s.broker.answers ==> r in s.requests && s.broker.answers[r] != Expired)
    && (s.broker.gate.Some? ==> s.broker.gate.value in s.requests)
  }

  lemma KeptUpToGate(s: State, step: Step)
    requires step.Arrive? || step.LoadFlag? || step.Enter?
    requires Invariant(s) && Apply(s, step).Some?
    ensures Invariant(Apply(s, step).value)
  {
  }

  lemma KeptAtCheck(s: State, step: Step)
    requires step.CheckFlag?
    requires Invariant(s) && Apply(s, step).Some?
    ensures Invariant(Apply(s, step).value)
  {
  }

  lemma KeptAtPrompt(s: State, step: Step)
    requires step.InsertPending? || step.Emit?
    requires Invariant(s) && Apply(s, step).Some?
    ensures Invariant(Apply(s, step).value)
  {
  }

  lemma KeptAtResponse(s: State, step: Step)
    requires step.UserResponds?
    requires Invariant(s) && Apply(s, step).Some?
    ensures Invariant(Apply(s, step).value)
  {
  }

  lemma KeptAtAnswer(s: State, step: Step)
    requires step.Receive? || step.TimeOut? || step.Leave?
    requires Invariant(s) && Apply(s, step).Some?
    ensures Invariant(Apply(s, step).value)
  {
  }

  lemma KeptAtDecision(s: State, step: Step)
    requires step.ActOnDecision?
    requires Invariant(s) && Apply(s, step).Some?
    ensures Invariant(Apply(s, step).value)
  {
    var s' := Apply(s, step).value;
    forall r | r in s'.requests ensures RequestAgrees(s', r) {
      assert RequestAgrees(s, r);
      AgreesAfterDecision(s, step, r);
    }
  }

  lemma AgreesAfterDecision(s: State, step: Step, r: RequestId)
    requires step.ActOnDecision? && Apply(s, step).Some?
    requires r in s.requests && RequestAgrees(s, r)
    ensures r in Apply(s, step).value.requests && RequestAgrees(Apply(s, step).value, r)
  {
  }

  lemma KeptAtSign(s: State, step: Step)
    requires step.Sign?
    requires Invariant(s) && Apply(s, step).Some?
    ensures Invariant(Apply(s, step).value)
  {
  }

  /** Every step of every request, of the user and of the timer keeps the invariant. */
  lemma InvariantKept(s: State, step: Step)
    requires Invariant(s) && Apply(s, step).Some?
    ensures Invariant(Apply(s, step).value)
  {
    hide Invariant;
    match step
    case Arrive(_, _) => KeptUpToGate(s, step);
    case LoadFlag(_) => KeptUpToGate(s, step);
    case Enter(_) => KeptUpToGate(s, step);
    case CheckFlag(_, _) => KeptAtCheck(s, step);
    case InsertPending(_) => KeptAtPrompt(s, step);
    case Emit(_, _) => KeptAtPrompt(s, step);
    case UserResponds(_, _) => KeptAtResponse(s, step);
    case Receive(_) => KeptAtAnswer(s, step);
    case TimeOut(_) => KeptAtAnswer(s, step);
    case Leave(_) => KeptAtAnswer(s, step);
    case ActOnDecision(_) => KeptAtDecision(s, step);
    case Sign(_, _) => KeptAtSign(s, step);
  }

  lemma {:induction false} InvariantHolds(run: Run, i: nat)
    requires IsRun(run) && i < |run.states|
    ensures Invariant(run.states[i])
  {
    if i > 0 {
      InvariantHolds(run, i - 1);
      StepOfRun(run, i - 1);
      InvariantKept(run.states[i - 1], run.steps[i - 1]);
    }
  }

  // ----- Where answers and session approvals come from -----

  /** At step `k` the user gives this decision for the pending prompt of `r`. */
  ghost predicate AnswerGiven(run: Run, k: nat, r: RequestId, d: Decision)
    requires IsRun(run) && k < |run.steps|
  {
    run.steps[k] == UserResponds(r, d) && r in run.states[k].broker.pending
  }

  ghost predicate AnswerGivenBefore(run: Run, i: nat, r: RequestId, d: Decision)
    requires IsRun(run) && i < |run.states|
  {
    exists k :: 0 <= k < i && AnswerGiven(run, k, r, d)
  }

  /** The user has answered some prompt of this agent with `AllowSession`. */
  ghost predicate SessionAllowedBefore(run: Run, i: nat, agent: AgentId)
    requires IsRun(run) && i < |run.states|
  {
    exists r :: AnswerGivenBefore(run, i, r, AllowSession)
      && r in run.states[i].requests && run.states[i].requests[r].agent == agent
  }

  /** A recorded answer is exactly one the user gave while the prompt was pending. */
  lemma {:induction false} AnswersAreGiven(run: Run, i: nat, r: RequestId, d: Decision)
    requires IsRun(run) && i < |run.states|
    ensures AnsweredWith(run.states[i], r, d) <==> AnswerGivenBefore(run, i, r, d)
  {
    if i > 0 {
      AnswersAreGiven(run, i - 1, r, d);
      InvariantHolds(run, i - 1);
      StepOfRun(run, i - 1);
      AnswersAreKept(run.states[i - 1], run.steps[i - 1], r, d);
      OneStepMore(run, i, r, d);
    }
  }

  lemma OneStepMore(run: Run, i: nat, r: RequestId, d: Decision)
    requires IsRun(run) && 0 < i < |run.states|
    ensures AnswerGivenBefore(run, i, r, d) <==> AnswerGivenBefore(run, i - 1, r, d) || AnswerGiven(run, i - 1, r, d)
  {
    if AnswerGivenBefore(run, i - 1, r, d) {
      var k :| 0 <= k < i - 1 && AnswerGiven(run, k, r, d);
      assert AnswerGiven(run, k, r, d);
    }
  }

  /** An answer, once given, is never changed. */
  lemma AnswersAreKept(s: State, step: Step, r: RequestId, d: Decision)
    requires Invariant(s) && Apply(s, step).Some?
    ensures AnsweredWith(Apply(s, step).value, r, d)
       <==> AnsweredWith(s, r, d) || (step == UserResponds(r, d) && r in s.broker.pending)
  {
    if r in s.requests { assert RequestAgrees(s, r); }
  }

  lemma AgentsAreKept(s: State, step: Step, r: RequestId)
    requires r in s.requests && Apply(s, step).Some?
    ensures r in Apply(s, step).value.requests
    ensures Apply(s, step).value.requests[r].agent == s.requests[r].agent
    ensures s.allowSession <= Apply(s, step).value.allowSession
  {
  }

  /** An agent signs for the rest of the session only if the user allowed that for this agent. */
  lemma {:induction false} SessionsAreAllowed(run: Run, i: nat, agent: AgentId)
    requires IsRun(run) && i < |run.states| && agent in run.states[i].allowSession
    ensures SessionAllowedBefore(run, i, agent)
  {
    var s, step := run.states[i - 1], run.steps[i - 1];
    StepOfRun(run, i - 1);
    var r: RequestId;
    if agent in s.allowSession {
      SessionsAreAllowed(run, i - 1, agent);
      r :| AnswerGivenBefore(run, i - 1, r, AllowSession)
        && r in s.requests && s.requests[r].agent == agent;
    } else {
      r := step.request;
      InvariantHolds(run, i - 1);
      assert RequestAgrees(s, r);
      AnswersAreGiven(run, i - 1, r, AllowSession);
    }
    AgentsAreKept(s, step, r);
    assert AnswerGivenBefore(run, i, r, AllowSession);
  }

  // ----- Safety -----

  /** Every signature is justified: the user allowed this very request, or had allowed its agent for the session. */
  lemma SignatureIsJustified(run: Run, i: nat, r: RequestId)
    requires IsRun(run) && i < |run.steps| && run.steps[i] == Sign(r, true)
    ensures r in run.states[i].requests
    ensures AnswerGivenBefore(run, i, r, AllowOnce) || SessionAllowedBefore(run, i, run.states[i].requests[r].agent)
  {
    StepOfRun(run, i);
    InvariantHolds(run, i);
    assert RequestAgrees(run.states[i], r);
    AnswersAreGiven(run, i, r, AllowOnce);
    if !AnsweredWith(run.states[i], r, AllowOnce) {
      SessionsAreAllowed(run, i, run.states[i].requests[r].agent);
    }
  }

  predicate HasReplied(s: State, r: RequestId) {
    r in s.requests && s.requests[r].phase.Replied?
  }

  lemma {:induction false} RepliedForever(run: Run, i: nat, j: nat, r: RequestId)
    requires IsRun(run) && i <= j < |run.states| && HasReplied(run.states[i], r)
    ensures HasReplied(run.states[j], r)
    decreases j
  {
    if i < j {
      RepliedForever(run, i, j - 1, r);
      StepOfRun(run, j - 1);
    }
  }

  /** A request is signed at most once, so an `AllowOnce`, which allows only its own request, allows one signature. */
  lemma SignsAtMostOnce(run: Run, i: nat, j: nat, r: RequestId)
    requires IsRun(run) && i < |run.steps| && j < |run.steps|
    requires run.steps[i].Sign? && run.steps[i].request == r && run.steps[j].Sign? && run.steps[j].request == r
    ensures i == j
  {
    StepOfRun(run, i);
    StepOfRun(run, j);
    if i < j { RepliedForever(run, i + 1, j, r); }
    if j < i { RepliedForever(run, j + 1, i, r); }
  }

  /** A request the user denied never reaches signing, before or after. */
  lemma DeniedNeverSigns(run: Run, i: nat, j: nat, r: RequestId)
    requires IsRun(run) && i < |run.steps| && j < |run.steps|
    requires AnswerGiven(run, i, r, Deny)
    ensures !(run.steps[j].Sign? && run.steps[j].request == r)
  {
    if run.steps[j].Sign? && run.steps[j].request == r {
      StepOfRun(run, j);
      PendingIsUnanswered(run, i, r);
      if j < i {
        RepliedForever(run, j + 1, i, r);
      } else {
        InvariantHolds(run, j);
        assert RequestAgrees(run.states[j], r);
        AnswersAreGiven(run, j, r, Deny);
      }
    }
  }

  lemma PendingIsUnanswered(run: Run, i: nat, r: RequestId)
    requires IsRun(run) && i < |run.states| && r in run.states[i].broker.pending
    ensures r in run.states[i].requests && !HasReplied(run.states[i], r) && !At(run.states[i], r, Signing)
  {
    InvariantHolds(run, i);
    assert RequestAgrees(run.states[i], r);
  }

  /** The decision the request acts on is a refusal. */
  predicate Refused(s: State, r: RequestId) {
    && r in s.requests
    && var phase := s.requests[r].phase;
       || ((phase.Answered? || phase.Decided?) && (phase.decision == Deny || phase.decision == Expired))
       || phase == Replied(Failure) || phase == Replied(NoReply)
  }

  lemma {:induction false} RefusedForever(run: Run, i: nat, j: nat, r: RequestId)
    requires IsRun(run) && i <= j < |run.states| && Refused(run.states[i], r)
    ensures Refused(run.states[j], r)
    decreases j
  {
    if i < j {
      RefusedForever(run, i, j - 1, r);
      StepOfRun(run, j - 1);
    }
  }

  /** A request whose prompt expired, or whose denial was received, is never signed. */
  lemma RefusedNeverSigns(run: Run, i: nat, j: nat, r: RequestId)
    requires IsRun(run) && i < |run.states| && j < |run.steps|
    requires Refused(run.states[i], r)
    ensures run.steps[j] != Sign(r, true)
  {
    if run.steps[j] == Sign(r, true) {
      StepOfRun(run, j);
      if i <= j {
        RefusedForever(run, i, j, r);
      } else {
        SignedForever(run, j + 1, i, r);
      }
    }
  }

  lemma {:induction false} SignedForever(run: Run, i: nat, j: nat, r: RequestId)
    requires IsRun(run) && i <= j < |run.states| && At(run.states[i], r, Replied(Signature))
    ensures At(run.states[j], r, Replied(Signature))
    decreases j
  {
    if i < j {
      SignedForever(run, i, j - 1, r);
      StepOfRun(run, j - 1);
    }
  }

  /** At most one prompt is pending at any time, and it belongs to the request that holds the gate. */
  lemma OnePromptAtATime(run: Run, i: nat)
    requires IsRun(run) && i < |run.states|
    ensures |run.states[i].broker.pending| <= 1
    ensures forall r :: r in run.states[i].broker.pending ==> run.states[i].broker.gate == Some(r)
  {
    InvariantHolds(run, i);
    var s := run.states[i];
    forall r | r in s.broker.pending ensures s.broker.gate == Some(r) {
      assert RequestAgrees(s, r);
    }
    if s.broker.pending != {} {
      assert s.broker.pending == {s.broker.gate.value};
    }
  }

  // ----- After a session approval -----

  /** Not yet past the second look at `allow_session`. */
  predicate IsBeforeCheck(phase: Phase) {
    phase.Arrived? || phase.WaitingForGate? || phase.InGate?
  }

  /** Of an agent allowed for the session, and not put to the user. */
  predicate IsSpared(s: State, r: RequestId, agent: AgentId) {
    && agent in s.allowSession
    && (r in s.requests && s.requests[r].agent == agent
        ==> var phase := s.requests[r].phase;
            IsBeforeCheck(phase) || phase == Decided(AllowSession) || phase.Signing? || phase.Replied?)
  }

  lemma StaysSpared(s: State, step: Step, r: RequestId, agent: AgentId)
    requires IsSpared(s, r, agent) && Apply(s, step).Some?
    ensures IsSpared(Apply(s, step).value, r, agent)
  {
  }

  lemma {:induction false} SparedForever(run: Run, i: nat, j: nat, r: RequestId, agent: AgentId)
    requires IsRun(run) && i <= j < |run.states| && IsSpared(run.states[i], r, agent)
    ensures IsSpared(run.states[j], r, agent)
    decreases j
  {
    if i < j {
      SparedForever(run, i, j - 1, r, agent);
      StepOfRun(run, j - 1);
      StaysSpared(run.states[j - 1], run.steps[j - 1], r, agent);
    }
  }

  /** Once an agent is allowed for the session, none of its requests is put to the user any more: neither a later one
      nor one that is waiting for the gate or holds it without having looked at the flag. */
  lemma SessionApprovalSticks(run: Run, i: nat, j: nat, r: RequestId, agent: AgentId)
    requires IsRun(run) && i <= j < |run.steps| && agent in run.states[i].allowSession
    requires r in run.states[i].requests ==> IsBeforeCheck(run.states[i].requests[r].phase)
    requires r in run.states[j].requests && run.states[j].requests[r].agent == agent
    ensures run.steps[j] != InsertPending(r)
    ensures r !in run.states[j].broker.pending && !run.states[j].requests[r].phase.Asked?
  {
    SparedForever(run, i, j, r, agent);
    StepOfRun(run, j);
    InvariantHolds(run, j);
    assert RequestAgrees(run.states[j], r);
  }

  /** A request that has looked and seen no approval is put to the user, whatever is approved meanwhile. */
  lemma {:induction false} SeenTooEarlyIsPrompted(run: Run, i: nat, j: nat, r: RequestId)
    requires IsRun(run) && i <= j < |run.states| && At(run.states[i], r, Registering)
    ensures At(run.states[j], r, Registering) || exists k :: i <= k < j && run.steps[k] == InsertPending(r)
    decreases j
  {
    if i < j {
      SeenTooEarlyIsPrompted(run, i, j - 1, r);
      StepOfRun(run, j - 1);
      if At(run.states[j - 1], r, Registering) && !At(run.states[j], r, Registering) {
        assert run.steps[j - 1] == InsertPending(r);
      }
    }
  }

  function Last(run: Run): State
    requires run.states != []
  {
    run.states[|run.states| - 1]
  }

  lemma OneMore(run: Run, step: Step) returns (longer: Run)
    requires IsRun(run) && Apply(Last(run), step).Some?
    ensures IsRun(longer) && longer.steps == run.steps + [step]
    ensures longer.states == run.states + [Apply(Last(run), step).value]
  {
    hide Apply;
    LongerRun(run, step, Apply(Last(run), step).value);
    longer := Run(run.states + [Apply(Last(run), step).value], run.steps + [step]);
  }

  lemma BothWait() returns (run: Run)
    ensures IsRun(run)
    ensures Last(run) == State(NEW_BROKER, {}, map[0 := Request(0, WaitingForGate), 1 := Request(0, WaitingForGate)])
  {
    run := Run([INITIAL], []);
    run := OneMore(run, Arrive(0, 0));
    run := OneMore(run, LoadFlag(0));
    run := OneMore(run, Arrive(1, 0));
    run := OneMore(run, LoadFlag(1));
  }

  /** Both requests of an agent have found it not allowed, and the user allows it for the session at the first
      prompt. */
  lemma FirstIsAllowed() returns (run: Run)
    ensures IsRun(run)
    ensures Last(run) == State(Broker(Some(0), {}, map[0 := AllowSession]), {},
                               map[0 := Request(0, Asked), 1 := Request(0, WaitingForGate)])
  {
    run := BothWait();
    run := OneMore(run, Enter(0));
    run := OneMore(run, CheckFlag(0, true));
    run := OneMore(run, InsertPending(0));
    run := OneMore(run, Emit(0, true));
    assert Last(run).requests == map[0 := Request(0, Asked), 1 := Request(0, WaitingForGate)];
    run := OneMore(run, UserResponds(0, AllowSession));
  }

  /** At step `i` the user is asked about a request of an agent allowed for the session. */
  ghost predicate PromptedThoughAllowed(run: Run, i: nat, r: RequestId) {
    && IsRun(run) && i < |run.steps| && run.steps[i] == InsertPending(r)
    && r in run.states[i].requests && run.states[i].requests[r].agent in run.states[i].allowSession
  }

  /** It happens: the flag is stored only after the gate is released, so the next holder of the gate can look at it in
      between, and the user is asked again right after the approval. */
  lemma ApprovalCanComeTooLate()
    ensures exists run, i, r :: PromptedThoughAllowed(run, i, r)
  {
    var run := FirstIsAllowed();
    run := OneMore(run, Receive(0));
    run := OneMore(run, Leave(0));
    assert Last(run).requests == map[0 := Request(0, Decided(AllowSession)), 1 := Request(0, WaitingForGate)];
    run := OneMore(run, Enter(1));
    run := OneMore(run, CheckFlag(1, true));
    run := OneMore(run, ActOnDecision(0));
    var i := |run.steps|;
    run := OneMore(run, InsertPending(1));
    assert PromptedThoughAllowed(run, i, 1);
  }

  // ----- Progress -----

  /** A step that request `r` can take without the user. */
  function OwnStep(s: State, r: RequestId): Step
    requires r in s.requests
  {
    match s.requests[r].phase
    case Arrived => LoadFlag(r)
    case WaitingForGate => Enter(r)
    case InGate => CheckFlag(r, true)
    case Registering => InsertPending(r)
    case Emitting => Emit(r, true)
    case Asked => TimeOut(r)
    case Answered(_) => Leave(r)
    case Decided(_) => ActOnDecision(r)
    case _ => Sign(r, true)
  }

  /** The gate cannot be lost: while a request is unanswered, it or the holder of the gate can go on. */
  lemma NeverStuck(run: Run, i: nat, r: RequestId)
    requires IsRun(run) && i < |run.states| && r in run.states[i].requests && !HasReplied(run.states[i], r)
    ensures var s := run.states[i];
            || Apply(s, OwnStep(s, r)).Some?
            || (&& s.broker.gate.Some? && s.broker.gate.value in s.requests
                && Apply(s, OwnStep(s, s.broker.gate.value)).Some?)
  {
    InvariantHolds(run, i);
    var s := run.states[i];
    assert RequestAgrees(s, r);
    if s.broker.gate.Some? { assert RequestAgrees(s, s.broker.gate.value); }
  }
}
