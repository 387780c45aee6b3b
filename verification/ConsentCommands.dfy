/**
  The consent protocol at work: each step is taken by calling the broker, and what the broker
  answers decides how the request goes on.
 */
module ConsentCommands {
  import opened Wrappers
  import opened ConsentProtocol
  import ConsentOutcomes
  import ConsentSafety

  /** The first half of `confirm`, up to the pending prompt. */
  method TakeStepToPrompt(broker: AgentConsentBroker, s: State, step: Step) returns (s': State)
    requires step.Enter? || step.CheckFlag? || step.InsertPending?
    requires broker.Value() == s.broker && Apply(s, step).Some?
    modifies broker
    ensures Apply(s, step) == Some(s') && broker.Value() == s'.broker
  {
    var r := step.request;
    match step {
      case Enter(_) =>
        var entered := broker.TryEnterGate(r);
        s' := if entered then Go(s, r, InGate).(broker := broker.Value()) else s;
      case CheckFlag(_, hasWindow) =>
        if s.requests[r].agent in s.allowSession || !hasWindow {
          broker.Release();
        }
        s' := Go(s, r, if s.requests[r].agent in s.allowSession then Decided(AllowSession)
                       else if hasWindow then Registering
                       else Decided(Expired)).(broker := broker.Value());
      case InsertPending(_) =>
        broker.InsertPending(r);
        s' := Go(s, r, Emitting).(broker := broker.Value());
    }
  }

  /** One step of the protocol, on the broker. */
  method TakeStep(broker: AgentConsentBroker, s: State, step: Step) returns (s': State)
    requires broker.Value() == s.broker && Apply(s, step).Some?
    modifies broker
    ensures Apply(s, step) == Some(s') && broker.Value() == s'.broker
  {
    var r := step.request;
    match step {
      case Enter(_) => s' := TakeStepToPrompt(broker, s, step);
      case CheckFlag(_, _) => s' := TakeStepToPrompt(broker, s, step);
      case InsertPending(_) => s' := TakeStepToPrompt(broker, s, step);
      case UserResponds(_, decision) =>
        broker.Answer(r, decision);
        s' := s.(broker := broker.Value());
      case Receive(_) =>
        s' := Go(s, r, Answered(broker.answers[r]));
      case Leave(_) =>
        broker.RemovePending(r);
        broker.Release();
        s' := Go(s, r, Decided(s.requests[r].phase.decision)).(broker := broker.Value());
      case _ => s' := Apply(s, step).value;
    }
  }

  /** Any schedule of requests, answers and time-outs, carried out on a new broker up to the first step that cannot be
      taken: what is proved of runs of the protocol holds of the broker. At most one prompt is pending, every signature
      was allowed by the user, every reply has its reason, and an allowed request goes on to signing. */
  method Execute(schedule: seq<Step>) returns (broker: AgentConsentBroker, run: Run)
    ensures IsRun(run) && run.steps <= schedule && broker.Value() == run.states[|run.steps|].broker
    ensures run.steps == schedule || Apply(run.states[|run.steps|], schedule[|run.steps|]).None?
    ensures |broker.pending| <= 1
    ensures forall i :: 0 <= i < |run.steps| ==> SignsOnlyAllowed(run, i)
    ensures forall r :: ConsentSafety.HasReplied(run.states[|run.steps|], r)
                        ==> ConsentOutcomes.IsExplained(run, |run.steps|, r)
    ensures forall r :: ConsentOutcomes.Received(run, |run.steps|, r, AllowOnce)
                        || ConsentOutcomes.Received(run, |run.steps|, r, AllowSession)
                        ==> ConsentOutcomes.GoesOnToSigning(run, |run.steps|, r)
  {
    hide Apply;
    broker := new AgentConsentBroker();
    run := Run([INITIAL], []);
    var s := INITIAL;
    while |run.steps| < |schedule| && Apply(s, schedule[|run.steps|]).Some?
      invariant IsRun(run) && run.steps <= schedule && fresh(broker)
      invariant s == run.states[|run.steps|] && broker.Value() == s.broker
    {
      var step := schedule[|run.steps|];
      var s' := TakeStep(broker, s, step);
      LongerRun(run, step, s');
      run := Run(run.states + [s'], run.steps + [step]);
      s := s';
    }
    ConsentSafety.OnePromptAtATime(run, |run.steps|);
    forall i | 0 <= i < |run.steps| ensures SignsOnlyAllowed(run, i) {
      SignatureIsAllowed(run, i);
    }
    RepliesAreRight(run);
  }

  lemma RepliesAreRight(run: Run)
    requires IsRun(run)
    ensures forall r :: ConsentSafety.HasReplied(run.states[|run.steps|], r)
                        ==> ConsentOutcomes.IsExplained(run, |run.steps|, r)
    ensures forall r :: ConsentOutcomes.Received(run, |run.steps|, r, AllowOnce)
                        || ConsentOutcomes.Received(run, |run.steps|, r, AllowSession)
                        ==> ConsentOutcomes.GoesOnToSigning(run, |run.steps|, r)
  {
    hide ConsentOutcomes.IsExplained, ConsentOutcomes.GoesOnToSigning, ConsentOutcomes.Received;
    var i := |run.steps|;
    forall r | ConsentSafety.HasReplied(run.states[i], r) ensures ConsentOutcomes.IsExplained(run, i, r) {
      ConsentOutcomes.ReplyIsExplained(run, i, r);
    }
    forall r | ConsentOutcomes.Received(run, i, r, AllowOnce) || ConsentOutcomes.Received(run, i, r, AllowSession)
      ensures ConsentOutcomes.GoesOnToSigning(run, i, r)
    {
      ConsentOutcomes.AllowedIsSigned(run, i, r);
    }
  }

  /** If this step signs, the user allowed this request or, for the session, its agent. */
  ghost predicate SignsOnlyAllowed(run: Run, i: nat)
    requires IsRun(run) && i < |run.steps|
  {
    var r := run.steps[i].request;
    run.steps[i] == Sign(r, true)
    ==> && r in run.states[i].requests
        && (|| ConsentSafety.AnswerGivenBefore(run, i, r, AllowOnce)
            || ConsentSafety.SessionAllowedBefore(run, i, run.states[i].requests[r].agent))
  }

  lemma SignatureIsAllowed(run: Run, i: nat)
    requires IsRun(run) && i < |run.steps|
    ensures SignsOnlyAllowed(run, i)
  {
    if run.steps[i] == Sign(run.steps[i].request, true) {
      ConsentSafety.SignatureIsJustified(run, i, run.steps[i].request);
    }
  }
}
