/**
  Signature consent: many requests, on channels of any number of forwarded agents, share one
  broker with its prompt gate and its table of pending prompts; each agent has an
  `allow_session` flag. A step is one atomic access to that shared state, or an outcome of the
  user interface or the timer, and steps of different requests interleave freely.

  A request here is a sign request the agent has already accepted (`AgentRequests`).
 */
module ConsentProtocol {
  import opened Wrappers

  type AgentId = nat
  type RequestId = nat

  datatype Decision = Deny | AllowOnce | AllowSession | Expired

  /** The shared state of the broker. `answers` holds what was sent into a prompt's one-shot channel. */
  datatype Broker = Broker(gate: Option<RequestId>, pending: set<RequestId>, answers: map<RequestId, Decision>)

  const NEW_BROKER := Broker(None, {}, map[])

  predicate GateFree(b: Broker) {
    b.gate.None?
  }

  function EnterGate(b: Broker, r: RequestId): Broker {
    b.(gate := Some(r))
  }

  function LeaveGate(b: Broker): Broker {
    b.(gate := None)
  }

  function Register(b: Broker, r: RequestId): Broker {
    b.(pending := b.pending + {r})
  }

  function Unregister(b: Broker, r: RequestId): Broker {
    b.(pending := b.pending - {r})
  }

  /** `respond`: an answer for a prompt that is no longer pending is dropped. */
  function Respond(b: Broker, r: RequestId, d: Decision): Broker {
    if r in b.pending
    then b.(pending := b.pending - {r}, answers := b.answers[r := d])
    else b
  }

  /** The broker's table and gate as the source updates them. */
  class AgentConsentBroker {
    var gate: Option<RequestId>
    var pending: set<RequestId>
    var answers: map<RequestId, Decision>

    function Value(): Broker
      reads this
    {
      Broker(gate, pending, answers)
    }

    constructor ()
      ensures Value() == NEW_BROKER
    {
      gate := None;
      pending := {};
      answers := map[];
    }

    method TryEnterGate(r: RequestId) returns (entered: bool)
      modifies this
      ensures entered == GateFree(old(Value()))
      ensures Value() == if entered then EnterGate(old(Value()), r) else old(Value())
    {
      entered := gate.None?;
      if entered {
        gate := Some(r);
      }
    }

    method Release()
      modifies this
      ensures Value() == LeaveGate(old(Value()))
    {
      gate := None;
    }

    method InsertPending(r: RequestId)
      modifies this
      ensures Value() == Register(old(Value()), r)
    {
      pending := pending + {r};
    }

    method RemovePending(r: RequestId)
      modifies this
      ensures Value() == Unregister(old(Value()), r)
    {
      pending := pending - {r};
    }

    method Answer(r: RequestId, decision: Decision)
      modifies this
      ensures Value() == Respond(old(Value()), r, decision)
    {
      if r in pending {
        pending := pending - {r};
        answers := answers[r := decision];
      }
    }
  }

  datatype Reply = Signature | Failure | NoReply

  datatype Phase =
    | Arrived                          // before the first look at allow_session
    | WaitingForGate
    | InGate                           // holds the gate, about to look at allow_session again
    | Registering                      // saw allow_session unset under the gate
    | Emitting                         // prompt is pending, event not yet emitted
    | Asked
    | Answered(decision: Decision)     // decision taken, prompt not yet unregistered
    | Decided(decision: Decision)      // confirm returned, gate released
    | Signing
    | Replied(reply: Reply)

  datatype Request = Request(agent: AgentId, phase: Phase)

  datatype State = State(broker: Broker, allowSession: set<AgentId>, requests: map<RequestId, Request>)

  const INITIAL := State(NEW_BROKER, {}, map[])

  datatype Step =
    | Arrive(request: RequestId, agent: AgentId)
    | LoadFlag(request: RequestId)
    | Enter(request: RequestId)
    | CheckFlag(request: RequestId, hasWindow: bool)
    | InsertPending(request: RequestId)
    | Emit(request: RequestId, ok: bool)
    | UserResponds(request: RequestId, decision: Decision)
    | Receive(request: RequestId)
    | TimeOut(request: RequestId)
    | Leave(request: RequestId)
    | ActOnDecision(request: RequestId)
    | Sign(request: RequestId, ok: bool)

  predicate At(s: State, r: RequestId, phase: Phase) {
    r in s.requests && s.requests[r].phase == phase
  }

  function Go(s: State, r: RequestId, phase: Phase): State
    requires r in s.requests
  {
    s.(requests := s.requests[r := s.requests[r].(phase := phase)])
  }

  function CheckFlagStep(s: State, r: RequestId, hasWindow: bool): Option<State> {
    if !At(s, r, InGate) then None
    else if s.requests[r].agent in s.allowSession then
      Some(Go(s, r, Decided(AllowSession)).(broker := LeaveGate(s.broker)))
    else if !hasWindow then Some(Go(s, r, Decided(Expired)).(broker := LeaveGate(s.broker)))
    else Some(Go(s, r, Registering))
  }

  function LeaveStep(s: State, r: RequestId): Option<State> {
    if r !in s.requests || !s.requests[r].phase.Answered? then None
    else Some(Go(s, r, Decided(s.requests[r].phase.decision)).(broker := LeaveGate(Unregister(s.broker, r))))
  }

  function ActStep(s: State, r: RequestId): Option<State> {
    if r !in s.requests || !s.requests[r].phase.Decided? then None else
      match s.requests[r].phase.decision
      case Deny => Some(Go(s, r, Replied(Failure)))
      case AllowOnce => Some(Go(s, r, Signing))
      case AllowSession => Some(Go(s, r, Signing).(allowSession := s.allowSession + {s.requests[r].agent}))
      case Expired => Some(Go(s, r, Replied(NoReply)))
  }

  /** The effect of a step, or `None` where it is not enabled. */
  function Apply(s: State, step: Step): Option<State> {
    var r := step.request;
    match step
    case Arrive(_, agent) =>
      if r in s.requests then None else Some(s.(requests := s.requests[r := Request(agent, Arrived)]))
    case LoadFlag(_) =>
      if !At(s, r, Arrived) then None
      else Some(Go(s, r, if s.requests[r].agent in s.allowSession then Signing else WaitingForGate))
    case Enter(_) =>
      if !At(s, r, WaitingForGate) || !GateFree(s.broker) then None
      else Some(Go(s, r, InGate).(broker := EnterGate(s.broker, r)))
    case CheckFlag(_, hasWindow) => CheckFlagStep(s, r, hasWindow)
    case InsertPending(_) =>
      if !At(s, r, Registering) then None
      else Some(Go(s, r, Emitting).(broker := Register(s.broker, r)))
    case Emit(_, ok) =>
      if !At(s, r, Emitting) then None else Some(Go(s, r, if ok then Asked else Answered(Expired)))
    case UserResponds(_, decision) =>
      if decision == Expired then None else Some(s.(broker := Respond(s.broker, r, decision)))
    case Receive(_) =>
      if !At(s, r, Asked) || r !in s.broker.answers then None
      else Some(Go(s, r, Answered(s.broker.answers[r])))
    case TimeOut(_) => if !At(s, r, Asked) then None else Some(Go(s, r, Answered(Expired)))
    case Leave(_) => LeaveStep(s, r)
    case ActOnDecision(_) => ActStep(s, r)
    case Sign(_, ok) =>
      if !At(s, r, Signing) then None else Some(Go(s, r, Replied(if ok then Signature else Failure)))
  }

  datatype Run = Run(states: seq<State>, steps: seq<Step>)

  ghost predicate IsRun(run: Run) {
    && |run.states| == |run.steps| + 1
    && run.states[0] == INITIAL
    && forall i :: 0 <= i < |run.steps| ==> Apply(run.states[i], run.steps[i]) == Some(run.states[i + 1])
  }

  lemma StepOfRun(run: Run, i: nat)
    requires IsRun(run) && i < |run.steps|
    ensures Apply(run.states[i], run.steps[i]) == Some(run.states[i + 1])
  {
  }

  /** A run goes on with any step that is enabled. */
  lemma LongerRun(run: Run, step: Step, s': State)
    requires IsRun(run) && Apply(run.states[|run.steps|], step) == Some(s')
    ensures IsRun(Run(run.states + [s'], run.steps + [step]))
  {
    hide Apply;
    var longer := Run(run.states + [s'], run.steps + [step]);
    forall i | 0 <= i < |longer.steps| ensures Apply(longer.states[i], longer.steps[i]) == Some(longer.states[i + 1]) {
      if i < |run.steps| {
        StepOfRun(run, i);
      }
    }
  }
}
