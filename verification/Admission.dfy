/** Manager, test endpoint and Receivers together, with every message in flight: the endpoint is scheduled for a
    tamper or replay plan only after each Receiver chosen for that plan has acknowledged its mapping. */
module Admission {
  import opened Bytes
  import M = ManagerExperiment
  import E = AttackEndpoint

  datatype Ack = Ack(receiver: M.Name, request: nat, roundId: M.Name, accepted: bool)

  /** Plans are delivered at most once; every other message may be delayed, reordered, repeated or lost.
      `submitted`, `chosen`, `positive` and `clearedFor` are history: the plans that were sent, the Receivers picked for
      each plan with their request, the positive answers that Receivers gave, and the plans whose mappings the manager
      cleared without dropping the plan. */
  datatype System = System(
    manager: M.Manager,
    endpoint: E.Endpoint,
    outs: set<M.Output>,
    plansInFlight: set<M.Plan>,
    reports: set<M.FromEndpoint>,
    acks: set<Ack>,
    submitted: map<nat, M.Plan>,
    chosen: map<nat, map<M.Name, nat>>,
    positive: set<(M.Name, nat)>,
    clearedFor: set<nat>)

  const INITIAL := System(M.INITIAL, E.INITIAL, {}, {}, {}, {}, map[], map[], {}, {})

  datatype Event =
    | ManagerActs(input: M.Input, links: M.Links)
    | EndpointReceives(message: M.ToEndpoint, now: nat)
    | Submit(kind: M.PlanKind, targets: seq<nat>, confirmed: bool, managers: nat, linkUp: bool)
    | LocalStop
    | WorkerStarts
    | WorkerCompletes
    | StatusBroadcast
    | ReceiverAnswers(ack: Ack)

  ghost predicate Enabled(s: System, e: Event) {
    match e
    case ManagerActs(input, _) =>
      && M.ValidInput(input)
      && (input.PlanReceived? ==> input.plan in s.plansInFlight)
      && (input.ReadyReceived? ==> M.ReadyReport(input.attackId, input.roundId) in s.reports)
      && (input.StatusReceived? ==> M.StatusReport(input.attackId, input.state) in s.reports)
      && (input.AckReceived? ==> Ack(input.receiver, input.request, input.roundId, input.accepted) in s.acks)
    case EndpointReceives(message, _) => M.ToTest(message) in s.outs
    case Submit(_, _, _, _, _) =>
      s.endpoint.context.Some? && s.endpoint.context.value.improved ==> s.endpoint.context.value.groupSize > 0
    case LocalStop => true
    case WorkerStarts => s.endpoint.state == M.Scheduled
    case WorkerCompletes => s.endpoint.state == M.Running
    case StatusBroadcast => true
    case ReceiverAnswers(ack) => M.Install(ack.request, ack.receiver) in s.outs
  }

  /** The manager will try to install mappings for this plan. */
  predicate Installing(m: M.Manager, plan: M.Plan) {
    m.contextSent && m.plan == None && m.context.Some? && M.Matches(plan, m.context.value) && plan.kind != M.Dos
  }

  /** A stop, the end of the round, a terminal status or the loss of a Receiver during execution clears the mappings of
      the held plan, which stays. */
  predicate StopsHeld(m: M.Manager, input: M.Input) {
    m.plan.Some? &&
      match input
      case StopRound(_) => true
      case RoundStateChanged(roundRunning) => !roundRunning && (m.running || m.ready)
      case StatusReceived(attackId, state) =>
        attackId == m.plan.value.attackId && E.Final(state)
      case NodesChanged(testConnected, connected) =>
        m.contextSent && testConnected && !(m.receivers <= connected) && m.running
      case _ => false
  }

  /** Each of the first n Receivers with its request. */
  function Chosen(order: seq<M.Name>, n: nat, base: nat): map<M.Name, nat>
    requires n <= |order|
  {
    if n == 0 then map[] else Chosen(order, n - 1, base)[order[n - 1] := base + n - 1]
  }

  function ManagerStep(s: System, input: M.Input, links: M.Links): System {
    var o := M.Step(s.manager, input, links);
    s.(manager := o.after, outs := s.outs + o.sent,
       plansInFlight := if input.PlanReceived? then s.plansInFlight - {input.plan} else s.plansInFlight,
       chosen := if input.PlanReceived? && Installing(s.manager, input.plan)
                 then s.chosen[input.plan.attackId := Chosen(input.order, |input.order|, s.manager.nextRequest)]
                 else s.chosen,
       clearedFor := if StopsHeld(s.manager, input) then s.clearedFor + {s.manager.plan.value.attackId}
                     else s.clearedFor)
  }

  ghost function SubmitStep(s: System, kind: M.PlanKind, targets: seq<nat>, confirmed: bool, managers: nat,
      linkUp: bool): System
    requires s.endpoint.context.Some? && s.endpoint.context.value.improved ==> s.endpoint.context.value.groupSize > 0
  {
    if s.endpoint.context == None || managers != 1 then s
    else
      var plan := E.NewPlan(s.endpoint, kind, targets);
      var next := s.endpoint.(nextAttackId := s.endpoint.nextAttackId + 1);
      if !E.Preparable(s.endpoint, plan, confirmed) then s.(endpoint := next)
      else if !linkUp then s.(endpoint := E.Discard(next))
      else s.(endpoint := next.(plan := Some(plan), state := M.PlanPending),
              plansInFlight := s.plansInFlight + {plan}, submitted := s.submitted[plan.attackId := plan])
  }

  function Reported(report: Option<M.FromEndpoint>): set<M.FromEndpoint> {
    if report.Some? then {report.value} else {}
  }

  function ReceiveStep(s: System, message: M.ToEndpoint, now: nat): System {
    var r := E.React(s.endpoint, message, now);
    s.(endpoint := r.after, reports := s.reports + Reported(r.report))
  }

  function AnswerStep(s: System, ack: Ack): System {
    s.(acks := s.acks + {ack},
       positive := if ack.accepted then s.positive + {(ack.receiver, ack.request)} else s.positive)
  }

  ghost function Apply(s: System, e: Event): System
    requires Enabled(s, e)
  {
    match e
    case ManagerActs(input, links) => ManagerStep(s, input, links)
    case EndpointReceives(message, now) => ReceiveStep(s, message, now)
    case Submit(kind, targets, confirmed, managers, linkUp) => SubmitStep(s, kind, targets, confirmed, managers, linkUp)
    case LocalStop => s.(endpoint := E.StopExecution(s.endpoint))
    case WorkerStarts => s.(endpoint := s.endpoint.(state := M.Running))
    case WorkerCompletes => s.(endpoint := s.endpoint.(state := M.Completed))
    case StatusBroadcast => s.(reports := s.reports + Reported(E.Status(s.endpoint)))
    case ReceiverAnswers(ack) => AnswerStep(s, ack)
  }

  // ----- What one manager step can do -----

  /** A positive decision is sent either for a DoS plan on arrival, or when the last missing positive answer arrives. */
  ghost predicate DecisionCause(m: M.Manager, input: M.Input, attackId: nat) {
    || (input.PlanReceived? && input.plan.kind == M.Dos && input.plan.attackId == attackId)
    || (input.AckReceived? && input.accepted && input.request in m.pending && m.pending[input.request] == input.receiver
        && m.pending - {input.request} == map[] && m.plan.Some? && m.plan.value.attackId == attackId)
  }

  lemma PlanDecisionCause(m: M.Manager, input: M.Input, links: M.Links, attackId: nat, roundId: M.Name)
    requires input.PlanReceived?
    requires M.ToTest(M.PlanDecision(attackId, roundId, true)) in M.HandlePlan(m, input.plan, input.order, links).sent
    ensures DecisionCause(m, input, attackId)
  {
    var held := m.(plan := Some(input.plan), planPending := true);
    if Installing(m, input.plan) { InstallSendsNoDecision(held, input.order, links); }
    hide M.InstallMappings, M.Clears;
  }

  lemma WhyDecided(m: M.Manager, input: M.Input, links: M.Links, attackId: nat, roundId: M.Name)
    requires M.ToTest(M.PlanDecision(attackId, roundId, true)) in M.Step(m, input, links).sent
    ensures DecisionCause(m, input, attackId)
  {
    if input.PlanReceived? {
      PlanDecisionCause(m, input, links, attackId, roundId);
    } else {
      hide M.HandlePlan, M.Clears;
    }
  }

  lemma InstallSendsNoDecision(m: M.Manager, order: seq<M.Name>, links: M.Links)
    ensures forall o :: o in M.InstallMappings(m, order, links).sent ==> !o.ToTest?
  {
    if m.context.Some? && m.plan.Some? && order != [] {
      M.InstallsAreRequests(order, M.ReachableFrom(order, links.nodes), m.nextRequest);
    }
    hide M.Installs, M.ReachableFrom;
  }

  lemma PlanAfter(m: M.Manager, input: M.Input, links: M.Links)
    requires m.Valid() && M.ValidInput(input)
    ensures var after := M.Step(m, input, links).after;
            after.plan == None || after.plan == m.plan
              || (input.PlanReceived? && m.plan == None && after.plan == Some(input.plan))
  {
    if input.PlanReceived? && Installing(m, input.plan) {
      M.InstallKeepsValid(m.(plan := Some(input.plan), planPending := true), input.order, links);
    }
    hide M.InstallMappings, M.Clears;
  }

  /** The open requests after a step: unchanged, all gone, one answered, or freshly installed. */
  ghost predicate PendingCause(m: M.Manager, input: M.Input, after: M.Manager) {
    || (after.pending == m.pending && after.plan == m.plan)
    || (input.AckReceived? && input.accepted && input.request in m.pending && m.pending[input.request] == input.receiver
        && after.pending == m.pending - {input.request} && after.plan == m.plan)
    || (input.PlanReceived? && Installing(m, input.plan) && after.plan == Some(input.plan) && input.order != []
        && after.pending == M.Requests(input.order, |input.order|, m.nextRequest))
  }

  lemma PendingAfterPlan(m: M.Manager, input: M.Input, links: M.Links)
    requires m.Valid() && input.PlanReceived? && M.HandlePlan(m, input.plan, input.order, links).after.pending != map[]
    ensures PendingCause(m, input, M.HandlePlan(m, input.plan, input.order, links).after)
  {
    if Installing(m, input.plan) {
      var held := m.(plan := Some(input.plan), planPending := true);
      M.InstallKeepsValid(held, input.order, links);
      InstallPending(held, input.order, links);
    }
    hide M.InstallMappings, M.Clears, M.Requests;
  }

  lemma PendingAfter(m: M.Manager, input: M.Input, links: M.Links)
    requires m.Valid() && M.ValidInput(input) && M.Step(m, input, links).after.pending != map[]
    ensures PendingCause(m, input, M.Step(m, input, links).after)
  {
    if input.PlanReceived? {
      PendingAfterPlan(m, input, links);
    } else if input.AckReceived? {
      PendingAfterAck(m, input, links);
    } else {
      hide M.HandlePlan, M.HandleAck, M.Clears, M.Requests, M.Manager.Valid;
    }
    hide M.Step, PendingCause;
  }

  lemma PendingAfterAck(m: M.Manager, input: M.Input, links: M.Links)
    requires input.AckReceived? && M.Step(m, input, links).after.pending != map[]
    ensures PendingCause(m, input, M.Step(m, input, links).after)
  {
    hide M.HandlePlan, M.Clears, M.Requests;
  }

  lemma InstallPending(m: M.Manager, order: seq<M.Name>, links: M.Links)
    requires m.pending == map[]
    ensures M.InstallMappings(m, order, links).ok ==>
            M.InstallMappings(m, order, links).after.pending == M.Requests(order, |order|, m.nextRequest) && order != []
  {
    hide M.Requests, M.Installs, M.ReachableFrom;
    assert map[] + M.Requests(order, |order|, m.nextRequest) == M.Requests(order, |order|, m.nextRequest);
  }

  // ----- The invariant -----

  /** Every Receiver chosen for the plan has answered its Install positively. */
  ghost predicate Confirmed(s: System, attackId: nat) {
    && attackId in s.chosen && s.chosen[attackId] != map[]
    && forall r :: r in s.chosen[attackId] ==> (r, s.chosen[attackId][r]) in s.positive
  }

  /** Plan identifiers are unique, and a plan in flight has not been acted upon. */
  ghost predicate PlansOk(s: System) {
    && (forall a :: a in s.submitted ==> s.submitted[a].attackId == a && a < s.endpoint.nextAttackId)
    && (forall p :: p in s.plansInFlight ==>
          p.attackId in s.submitted && s.submitted[p.attackId] == p && p.attackId !in s.chosen)
    && (forall a :: a in s.chosen ==> a in s.submitted && s.submitted[a].kind != M.Dos)
    && (s.manager.plan.Some? ==> s.manager.plan.value in s.submitted.Values && s.manager.plan.value !in s.plansInFlight)
    && (s.endpoint.plan.Some? ==> s.endpoint.plan.value in s.submitted.Values)
  }

  /** Each chosen Receiver of the held plan still owes its answer or has answered positively. */
  ghost predicate PendingOk(s: System) {
    s.manager.pending != map[] ==>
      && s.manager.plan.Some? && s.manager.plan.value.attackId in s.chosen
      && var picked := s.chosen[s.manager.plan.value.attackId];
         && picked != map[]
         && forall r :: r in picked ==>
              (picked[r] in s.manager.pending && s.manager.pending[picked[r]] == r) || (r, picked[r]) in s.positive
  }

  ghost predicate DecisionsOk(s: System) {
    forall a: nat, r: M.Name :: M.ToTest(M.PlanDecision(a, r, true)) in s.outs ==>
      a in s.submitted && (s.submitted[a].kind == M.Dos || Confirmed(s, a))
  }

  ghost predicate EndpointOk(s: System) {
    s.endpoint.Admitted() ==>
      M.ToTest(M.PlanDecision(s.endpoint.plan.value.attackId, s.endpoint.plan.value.roundId, true)) in s.outs
  }

  ghost predicate AcksOk(s: System) {
    && (forall a :: a in s.acks && a.accepted ==> (a.receiver, a.request) in s.positive)
    && (forall r: M.Name, q: nat :: (r, q) in s.positive ==> M.Install(q, r) in s.outs)
  }

  ghost predicate Inv(s: System) {
    && s.manager.Valid() && s.endpoint.Valid()
    && PlansOk(s) && PendingOk(s) && DecisionsOk(s) && EndpointOk(s) && AcksOk(s)
  }

  // ----- Preservation: manager steps -----

  lemma {:induction false} ChosenAreRequests(order: seq<M.Name>, n: nat, base: nat)
    requires n <= |order| && M.NoRepeats(order)
    ensures forall r :: r in Chosen(order, n, base) <==> r in order[..n]
    ensures forall r :: r in Chosen(order, n, base) ==>
              Chosen(order, n, base)[r] in M.Requests(order, n, base)
                && M.Requests(order, n, base)[Chosen(order, n, base)[r]] == r
  {
    if n > 0 {
      ChosenAreRequests(order, n - 1, base);
      assert order[..n] == order[..n - 1] + [order[n - 1]];
    }
  }

  /** Adding answers or choosing Receivers for another plan keeps a confirmed plan confirmed. */
  lemma ConfirmedStays(s: System, t: System, a: nat)
    requires Confirmed(s, a) && s.positive <= t.positive && a in t.chosen && t.chosen[a] == s.chosen[a]
    ensures Confirmed(t, a)
  {
  }

  lemma ManagerPlansOk(s: System, input: M.Input, links: M.Links)
    requires Inv(s) && Enabled(s, ManagerActs(input, links))
    ensures PlansOk(ManagerStep(s, input, links))
  {
    hide M.Step, DecisionsOk, PendingOk, AcksOk, EndpointOk, Chosen, M.Manager.Valid;
    PlanAfter(s.manager, input, links);
    if input.PlanReceived? {
      var p := input.plan;
      assert p.attackId in s.submitted && p in s.submitted.Values;
      forall other | other in s.plansInFlight - {p} ensures other.attackId != p.attackId {
      }
    }
  }

  lemma ManagerPendingOk(s: System, input: M.Input, links: M.Links)
    requires Inv(s) && Enabled(s, ManagerActs(input, links))
    ensures PendingOk(ManagerStep(s, input, links))
  {
    hide M.Step, DecisionsOk, EndpointOk, M.Manager.Valid, M.Requests, Chosen;
    var t := ManagerStep(s, input, links);
    if t.manager.pending != map[] {
      PendingAfter(s.manager, input, links);
      if input.PlanReceived? && Installing(s.manager, input.plan) && t.manager.plan == Some(input.plan) {
        ChosenAreRequests(input.order, |input.order|, s.manager.nextRequest);
        if input.order != [] { assert input.order[0] in input.order[..|input.order|]; }
      }
    }
  }

  lemma ManagerDecisionsOk(s: System, input: M.Input, links: M.Links)
    requires Inv(s) && Enabled(s, ManagerActs(input, links))
    ensures DecisionsOk(ManagerStep(s, input, links))
  {
    hide M.Step, EndpointOk, M.Manager.Valid, Chosen;
    var t := ManagerStep(s, input, links);
    forall a: nat, r: M.Name | M.ToTest(M.PlanDecision(a, r, true)) in t.outs
      ensures a in t.submitted && (t.submitted[a].kind == M.Dos || Confirmed(t, a))
    {
      if M.ToTest(M.PlanDecision(a, r, true)) in s.outs {
        if s.submitted[a].kind != M.Dos { ConfirmedStays(s, t, a); }
      } else {
        WhyDecided(s.manager, input, links, a, r);
        if input.AckReceived? { LastAnswerConfirms(s, input, a); }
      }
    }
  }

  /** When the last open request is answered positively, every chosen Receiver has confirmed. */
  lemma LastAnswerConfirms(s: System, input: M.Input, a: nat)
    requires PlansOk(s) && PendingOk(s) && AcksOk(s)
    requires input.AckReceived? && input.accepted && Ack(input.receiver, input.request, input.roundId, true) in s.acks
    requires input.request in s.manager.pending && s.manager.pending[input.request] == input.receiver
    requires s.manager.pending - {input.request} == map[] && s.manager.plan.Some? && s.manager.plan.value.attackId == a
    ensures a in s.submitted && Confirmed(s, a)
  {
    OnlyKey(s.manager.pending, input.request);
  }

  lemma OnlyKey(m: map<nat, M.Name>, k: nat)
    requires m - {k} == map[]
    ensures forall q :: q in m ==> q == k
  {
    assert forall q :: q in m && q != k ==> q in m - {k};
  }

  lemma ManagerKeepsInv(s: System, input: M.Input, links: M.Links)
    requires Inv(s) && Enabled(s, ManagerActs(input, links))
    ensures Inv(ManagerStep(s, input, links))
  {
    M.StepKeepsValid(s.manager, input, links);
    ManagerPlansOk(s, input, links);
    ManagerPendingOk(s, input, links);
    ManagerDecisionsOk(s, input, links);
    hide M.Step, M.Manager.Valid, Chosen, PlansOk, PendingOk, DecisionsOk;
  }

  // ----- Preservation: the endpoint and the Receivers -----

  /** Sending a new plan: its identifier was never used before. */
  lemma FreshPlanOk(s: System, t: System, plan: M.Plan)
    requires PlansOk(s) && plan.attackId == s.endpoint.nextAttackId
    requires t == s.(endpoint := t.endpoint, plansInFlight := s.plansInFlight + {plan},
             submitted := s.submitted[plan.attackId := plan])
    requires t.endpoint.plan == Some(plan) && t.endpoint.nextAttackId == plan.attackId + 1
    ensures PlansOk(t)
  {
    assert t.submitted[plan.attackId] == plan;
    assert forall p :: p in s.submitted.Values ==>
      p.attackId in s.submitted && s.submitted[p.attackId] == p && p.attackId != plan.attackId;
    assert forall a :: a in s.submitted ==> a in t.submitted && t.submitted[a] == s.submitted[a];
    assert s.manager.plan.Some? ==> t.submitted[s.manager.plan.value.attackId] == s.manager.plan.value;
  }

  /** Decisions stay justified when nothing but plans in flight, submissions and answers are added. */
  lemma DecisionsStay(s: System, t: System)
    requires DecisionsOk(s) && t.outs == s.outs && t.chosen == s.chosen && s.positive <= t.positive
    requires forall a :: a in s.submitted ==> a in t.submitted && t.submitted[a] == s.submitted[a]
    ensures DecisionsOk(t)
  {
    forall a: nat, r: M.Name | M.ToTest(M.PlanDecision(a, r, true)) in t.outs
      ensures a in t.submitted && (t.submitted[a].kind == M.Dos || Confirmed(t, a))
    {
      if s.submitted[a].kind != M.Dos { ConfirmedStays(s, t, a); }
    }
  }

  lemma SubmitKeepsInv(s: System, e: Event)
    requires Inv(s) && e.Submit? && Enabled(s, e)
    ensures Inv(Apply(s, e))
  {
    hide M.Manager.Valid, E.Endpoint.Valid, E.Preparable, DecisionsOk, AcksOk, PendingOk, PlansOk, EndpointOk;
    var t := Apply(s, e);
    SubmitPlansOk(s, e);
    SubmitEndpointOk(s, e);
    DecisionsStay(s, t);
    FrameOk(s, t);
  }

  lemma SubmitEndpointOk(s: System, e: Event)
    requires s.endpoint.Valid() && EndpointOk(s) && e.Submit? && Enabled(s, e)
    ensures Apply(s, e).endpoint.Valid() && EndpointOk(Apply(s, e))
  {
    hide E.IndexesValid, E.ThresholdExceeded;
  }

  lemma SubmitPlansOk(s: System, e: Event)
    requires PlansOk(s) && e.Submit? && Enabled(s, e)
    ensures PlansOk(Apply(s, e))
    ensures forall a :: a in s.submitted ==>
              a in Apply(s, e).submitted && Apply(s, e).submitted[a] == s.submitted[a]
  {
    hide E.Preparable;
    var t := Apply(s, e);
    if t.submitted != s.submitted {
      var plan := E.NewPlan(s.endpoint, e.kind, e.targets);
      assert plan.attackId !in s.submitted;
      FreshPlanOk(s, t, plan);
      hide PlansOk;
    }
  }

  /** The clauses that do not mention the endpoint or the plans in flight. */
  lemma FrameOk(s: System, t: System)
    requires t.manager == s.manager && t.chosen == s.chosen && t.positive == s.positive && t.outs == s.outs
             && t.acks == s.acks
    ensures PendingOk(s) ==> PendingOk(t)
    ensures AcksOk(s) ==> AcksOk(t)
  {
  }

  lemma ReceiveKeepsInv(s: System, e: Event)
    requires Inv(s) && e.EndpointReceives? && Enabled(s, e)
    ensures Inv(Apply(s, e))
  {
    hide M.Manager.Valid, DecisionsOk, AcksOk, PendingOk;
    var t := Apply(s, e);
    assert PlansOk(t);
    hide PlansOk;
    DecisionsStay(s, t);
    FrameOk(s, t);
  }

  lemma AnswerKeepsInv(s: System, e: Event)
    requires Inv(s) && e.ReceiverAnswers? && Enabled(s, e)
    ensures Inv(Apply(s, e))
  {
    hide M.Manager.Valid, DecisionsOk, E.Endpoint.Valid;
    var t := Apply(s, e);
    assert PlansOk(t) by { hide PendingOk, AcksOk; }
    hide PlansOk;
    DecisionsStay(s, t);
  }

  lemma LocalKeepsInv(s: System, e: Event)
    requires Inv(s) && (e.LocalStop? || e.WorkerStarts? || e.WorkerCompletes? || e.StatusBroadcast?) && Enabled(s, e)
    ensures Inv(Apply(s, e))
  {
    hide M.Manager.Valid, DecisionsOk, AcksOk, PendingOk;
    var t := Apply(s, e);
    assert PlansOk(t);
    hide PlansOk;
    DecisionsStay(s, t);
    FrameOk(s, t);
  }

  lemma ApplyKeepsInv(s: System, e: Event)
    requires Inv(s) && Enabled(s, e)
    ensures Inv(Apply(s, e))
  {
    if e.ManagerActs? {
      ManagerKeepsInv(s, e.input, e.links);
    } else if e.Submit? {
      SubmitKeepsInv(s, e);
    } else if e.EndpointReceives? {
      ReceiveKeepsInv(s, e);
    } else if e.ReceiverAnswers? {
      AnswerKeepsInv(s, e);
    } else {
      LocalKeepsInv(s, e);
    }
    hide Inv, ManagerStep;
  }

  // ----- Runs -----

  /** The state after a run, if every event of it was enabled. */
  ghost function Execute(events: seq<Event>): Option<System> {
    if events == [] then Some(INITIAL)
    else
      var before := Execute(events[..|events| - 1]);
      var e := events[|events| - 1];
      if before.Some? && Enabled(before.value, e) then Some(Apply(before.value, e)) else None
  }

  lemma {:induction false} RunKeepsInv(events: seq<Event>)
    requires Execute(events).Some?
    ensures Inv(Execute(events).value)
  {
    hide Apply, Enabled;
    if events == [] {
      InitialInv();
    } else {
      hide Inv;
      var e := events[|events| - 1];
      RunKeepsInv(events[..|events| - 1]);
      ApplyKeepsInv(Execute(events[..|events| - 1]).value, e);
    }
  }

  lemma InitialInv()
    ensures Inv(INITIAL)
  {
  }

  /** In every run, at the moment the endpoint becomes scheduled for a tamper or replay plan, the manager had already
      picked Receivers for that plan and each of them had already answered its Install positively. */
  lemma ScheduledOnlyWhenConfirmed(events: seq<Event>, e: Event)
    requires Execute(events).Some? && Enabled(Execute(events).value, e)
    requires Apply(Execute(events).value, e).endpoint.state == M.Scheduled
             && Execute(events).value.endpoint.state != M.Scheduled
    ensures var s := Execute(events).value;
            && s.endpoint.plan.Some? && Apply(s, e).endpoint.plan == s.endpoint.plan
            && (s.endpoint.plan.value.kind != M.Dos ==>
                  var a := s.endpoint.plan.value.attackId;
                  && a in s.chosen && s.chosen[a] != map[]
                  && forall r :: r in s.chosen[a] ==>
                       (r, s.chosen[a][r]) in s.positive && M.Install(s.chosen[a][r], r) in s.outs)
  {
    var s := Execute(events).value;
    RunKeepsInv(events);
    hide Execute;
    assert e.EndpointReceives? && s.endpoint.state == M.Ready;
    if s.endpoint.plan.value.kind != M.Dos { AdmittedIsConfirmed(s); }
  }

  lemma AdmittedIsConfirmed(s: System)
    requires Inv(s) && s.endpoint.Admitted() && s.endpoint.plan.value.kind != M.Dos
    ensures Confirmed(s, s.endpoint.plan.value.attackId)
    ensures var picked := s.chosen[s.endpoint.plan.value.attackId];
            forall r :: r in picked ==> M.Install(picked[r], r) in s.outs
  {
    hide PendingOk, M.Manager.Valid;
    var plan := s.endpoint.plan.value;
    assert s.submitted[plan.attackId] == plan;
  }

  // ----- What the ready flag of the manager means -----

  /** A ready report follows a positive decision. */
  ghost predicate ReportsOk(s: System) {
    forall a: nat, r: M.Name :: M.ReadyReport(a, r) in s.reports ==> M.ToTest(M.PlanDecision(a, r, true)) in s.outs
  }

  /** The held tamper or replay plan has its chosen Receivers until its mappings are cleared, and once it was accepted
      the mappings are marked as installed until then. */
  ghost predicate HeldOk(s: System) {
    var m := s.manager;
    && (m.plan == None ==> !m.mappingsInstalled)
    && (m.plan.Some? && m.plan.value.kind != M.Dos ==>
          var a := m.plan.value.attackId;
          if a in s.clearedFor then !m.mappingsInstalled && m.pending == map[]
          else
            && a in s.chosen && m.receivers == s.chosen[a].Keys
            && forall r: M.Name :: M.ToTest(M.PlanDecision(a, r, true)) in s.outs ==> m.mappingsInstalled)
  }

  ghost predicate ClearedOk(s: System) {
    s.clearedFor <= s.submitted.Keys && forall p :: p in s.plansInFlight ==> p.attackId !in s.clearedFor
  }

  ghost predicate FlagInv(s: System) {
    ReportsOk(s) && HeldOk(s) && ClearedOk(s)
  }

  /** What a manager step does to the held plan and its mappings. */
  ghost predicate HoldingCause(m: M.Manager, input: M.Input, after: M.Manager) {
    || (after.plan == None && !after.mappingsInstalled)
    || (StopsHeld(m, input) && after.plan == m.plan && !after.mappingsInstalled && after.pending == map[])
    || (!StopsHeld(m, input) && input.PlanReceived? && m.plan == None && after.plan == Some(input.plan) &&
        (input.plan.kind == M.Dos || (Installing(m, input.plan) && after.receivers == M.Members(input.order))))
    || (!StopsHeld(m, input) && m.plan.Some? && after.plan == m.plan && after.receivers == m.receivers &&
        (input.PlanReceived? ==> !Installing(m, input.plan)) &&
        ((after.mappingsInstalled && m.pending != map[]) ||
         (after.mappingsInstalled == m.mappingsInstalled && (m.pending == map[] ==> after.pending == map[]))))
  }

  lemma HoldingAfterPlan(m: M.Manager, input: M.Input, links: M.Links)
    requires m.Valid() && input.PlanReceived? && M.ValidInput(input) && (m.plan == None ==> !m.mappingsInstalled)
    ensures HoldingCause(m, input, M.HandlePlan(m, input.plan, input.order, links).after)
  {
    if Installing(m, input.plan) {
      M.InstallKeepsValid(m.(plan := Some(input.plan), planPending := true), input.order, links);
    }
    hide M.Clears, M.Installs, M.Requests, M.ReachableFrom, M.Members;
  }

  lemma HoldingAfter(m: M.Manager, input: M.Input, links: M.Links)
    requires m.Valid() && M.ValidInput(input) && (m.plan == None ==> !m.mappingsInstalled)
    ensures HoldingCause(m, input, M.Step(m, input, links).after)
  {
    if input.PlanReceived? {
      HoldingAfterPlan(m, input, links);
    } else if input.AckReceived? {
      HoldingAfterAck(m, input, links);
    } else if input.NodesChanged? {
      HoldingAfterNodes(m, input, links);
    } else {
      hide M.HandlePlan, M.HandleAck, M.HandleNodes, M.Clears, M.Members, M.Requests;
    }
    hide M.Step, HoldingCause;
  }

  lemma HoldingAfterNodes(m: M.Manager, input: M.Input, links: M.Links)
    requires m.Valid() && input.NodesChanged? && (m.plan == None ==> !m.mappingsInstalled)
    ensures HoldingCause(m, input, M.Step(m, input, links).after)
  {
    hide M.HandlePlan, M.HandleAck, M.Clears, M.Members, M.Requests;
  }

  lemma HoldingAfterAck(m: M.Manager, input: M.Input, links: M.Links)
    requires m.Valid() && input.AckReceived? && (m.plan == None ==> !m.mappingsInstalled)
    ensures HoldingCause(m, input, M.Step(m, input, links).after)
  {
    hide M.HandlePlan, M.Clears, M.Members, M.Requests;
  }

  /** A positive decision leaves the mappings of a held tamper or replay plan installed. */
  lemma DecidedIsInstalled(m: M.Manager, input: M.Input, links: M.Links, a: nat, r: M.Name)
    requires m.Valid() && M.ToTest(M.PlanDecision(a, r, true)) in M.Step(m, input, links).sent
    requires M.Step(m, input, links).after.plan.Some? && M.Step(m, input, links).after.plan.value.kind != M.Dos
    ensures input.AckReceived? && M.Step(m, input, links).after.mappingsInstalled
  {
    WhyDecided(m, input, links, a, r);
    hide M.InstallMappings, M.Clears;
  }

  /** A plan in flight was neither decided nor cleared before. */
  lemma ArrivingIsNew(s: System, input: M.Input, links: M.Links)
    requires PlansOk(s) && DecisionsOk(s) && ClearedOk(s) && Enabled(s, ManagerActs(input, links))
             && input.PlanReceived?
    requires input.plan.kind != M.Dos
    ensures input.plan.attackId !in s.clearedFor
    ensures forall r: M.Name :: M.ToTest(M.PlanDecision(input.plan.attackId, r, true)) !in s.outs
  {
  }

  lemma ChosenMembers(order: seq<M.Name>, base: nat)
    requires M.NoRepeats(order)
    ensures Chosen(order, |order|, base).Keys == M.Members(order)
  {
    ChosenAreRequests(order, |order|, base);
    assert order[..|order|] == order;
    hide Chosen;
  }

  /** A newly held plan. */
  lemma HeldArrives(s: System, input: M.Input, links: M.Links)
    requires Inv(s) && FlagInv(s) && Enabled(s, ManagerActs(input, links)) && input.PlanReceived?
             && s.manager.plan == None
    requires ManagerStep(s, input, links).manager.plan == Some(input.plan) && input.plan.kind != M.Dos
    requires Installing(s.manager, input.plan)
    requires ManagerStep(s, input, links).manager.receivers == M.Members(input.order)
    ensures HeldOk(ManagerStep(s, input, links))
  {
    var t := ManagerStep(s, input, links);
    ArrivingIsNew(s, input, links);
    ChosenMembers(input.order, s.manager.nextRequest);
    hide PendingOk, AcksOk, EndpointOk, PlansOk, DecisionsOk, M.Manager.Valid, Chosen, M.Members;
    forall r: M.Name | M.ToTest(M.PlanDecision(input.plan.attackId, r, true)) in t.outs ensures false {
      DecidedByAck(s.manager, input, links, input.plan.attackId, r);
    }
    hide M.Step;
  }

  lemma DecidedByAck(m: M.Manager, input: M.Input, links: M.Links, a: nat, r: M.Name)
    requires M.ToTest(M.PlanDecision(a, r, true)) in M.Step(m, input, links).sent
    ensures input.AckReceived? || (input.PlanReceived? && input.plan.kind == M.Dos)
  {
    WhyDecided(m, input, links, a, r);
    hide M.Step;
  }

  /** A plan that stays held. */
  lemma HeldStays(s: System, input: M.Input, links: M.Links)
    requires Inv(s) && FlagInv(s) && Enabled(s, ManagerActs(input, links)) && s.manager.plan.Some?
    requires ManagerStep(s, input, links).manager.plan == s.manager.plan && s.manager.plan.value.kind != M.Dos
    requires HoldingCause(s.manager, input, ManagerStep(s, input, links).manager)
    ensures HeldOk(ManagerStep(s, input, links))
  {
    var t := ManagerStep(s, input, links);
    var a := s.manager.plan.value.attackId;
    hide PendingOk, AcksOk, EndpointOk, DecisionsOk, Chosen, M.Members;
    forall r: M.Name | M.ToTest(M.PlanDecision(a, r, true)) in t.outs && M.ToTest(M.PlanDecision(a, r, true)) !in s.outs
      ensures t.manager.mappingsInstalled
    {
      DecidedIsInstalled(s.manager, input, links, a, r);
    }
    hide M.Step, PlansOk, M.Manager.Valid;
    assert StopsHeld(s.manager, input) ==> a in t.clearedFor;
    assert !StopsHeld(s.manager, input) ==> t.clearedFor == s.clearedFor;
    assert input.PlanReceived? ==> !Installing(s.manager, input.plan);
    hide StopsHeld;
  }

  lemma ManagerKeepsHeld(s: System, input: M.Input, links: M.Links)
    requires Inv(s) && FlagInv(s) && Enabled(s, ManagerActs(input, links))
    ensures HeldOk(ManagerStep(s, input, links))
  {
    var t := ManagerStep(s, input, links);
    hide M.Step, PlansOk, PendingOk, AcksOk, EndpointOk, DecisionsOk, Chosen, M.Members, ReportsOk, ClearedOk;
    HoldingAfter(s.manager, input, links);
    if t.manager.plan.Some? && t.manager.plan.value.kind != M.Dos {
      if s.manager.plan.Some? && t.manager.plan == s.manager.plan {
        HeldStays(s, input, links);
      } else {
        HeldArrives(s, input, links);
      }
    }
  }

  lemma ManagerKeepsFlag(s: System, input: M.Input, links: M.Links)
    requires Inv(s) && FlagInv(s) && Enabled(s, ManagerActs(input, links))
    ensures FlagInv(ManagerStep(s, input, links))
  {
    ManagerKeepsHeld(s, input, links);
    var t := ManagerStep(s, input, links);
    hide M.Step, M.Manager.Valid, DecisionsOk, PendingOk, EndpointOk, AcksOk, Chosen, HeldOk;
    if StopsHeld(s.manager, input) { HeldWasSubmitted(s); }
    hide StopsHeld;
    assert ReportsOk(t) && ClearedOk(t);
  }

  lemma HeldWasSubmitted(s: System)
    requires PlansOk(s) && s.manager.plan.Some?
    ensures s.manager.plan.value.attackId in s.submitted
    ensures forall p :: p in s.plansInFlight ==> p.attackId != s.manager.plan.value.attackId
  {
  }

  lemma EndpointKeepsFlag(s: System, e: Event)
    requires Inv(s) && FlagInv(s) && !e.ManagerActs? && Enabled(s, e)
    ensures FlagInv(Apply(s, e))
  {
    hide M.Manager.Valid, DecisionsOk, AcksOk, PendingOk, EndpointOk, E.Preparable;
  }

  lemma {:induction false} RunKeepsFlag(events: seq<Event>)
    requires Execute(events).Some?
    ensures FlagInv(Execute(events).value)
  {
    hide Apply, Enabled;
    if events != [] {
      hide Inv, FlagInv;
      var n := |events| - 1;
      var s := Execute(events[..n]).value;
      RunKeepsFlag(events[..n]);
      RunKeepsInv(events[..n]);
      FlagKept(s, events[n]);
    }
  }

  lemma FlagKept(s: System, e: Event)
    requires Inv(s) && FlagInv(s) && Enabled(s, e)
    ensures FlagInv(Apply(s, e))
  {
    hide Inv, FlagInv, ManagerStep;
    if e.ManagerActs? { ManagerKeepsFlag(s, e.input, e.links); } else { EndpointKeepsFlag(s, e); }
  }

  /** The mappings of the held plan are in place: every chosen Receiver confirmed its own, and the manager counts them
      as installed on exactly those Receivers. */
  ghost predicate Backed(s: System, a: nat) {
    Confirmed(s, a) && s.manager.mappingsInstalled && s.manager.receivers == s.chosen[a].Keys
  }

  /** A ready report of the held tamper or replay plan comes after every chosen Receiver answered positively. */
  lemma ReadyIsConfirmed(s: System, attackId: nat, roundId: M.Name)
    requires Inv(s) && ReportsOk(s) && M.ReadyReport(attackId, roundId) in s.reports
    requires s.manager.plan.Some? && s.manager.plan.value.attackId == attackId && s.manager.plan.value.kind != M.Dos
    ensures Confirmed(s, attackId)
  {
    hide PendingOk, EndpointOk, AcksOk, M.Manager.Valid, Confirmed;
    assert s.submitted[attackId] == s.manager.plan.value;
  }

  /** In every run, a ready report of the held tamper or replay plan raises the manager's ready flag after every chosen
      Receiver answered positively, and what the flag promises, mappings in place on every chosen Receiver, is true if
      and only if the mappings of that plan were not cleared before: by a stop, the end of the round, a terminal status
      or the loss of a Receiver. */
  lemma ReadyIsBackedIff(events: seq<Event>, attackId: nat, roundId: M.Name, links: M.Links)
    requires Execute(events).Some?
    requires Enabled(Execute(events).value, ManagerActs(M.ReadyReceived(attackId, roundId), links))
    requires var held := Execute(events).value.manager.plan;
             held.Some? && held.value.attackId == attackId && held.value.roundId == roundId && held.value.kind != M.Dos
    ensures var s := Execute(events).value;
            var t := Apply(s, ManagerActs(M.ReadyReceived(attackId, roundId), links));
            && t.manager.ready && t.manager.plan == s.manager.plan && Confirmed(t, attackId)
            && (Backed(t, attackId) <==> attackId !in s.clearedFor)
  {
    RunKeepsInv(events);
    RunKeepsFlag(events);
    var s := Execute(events).value;
    hide Execute, M.ValidInput, Inv, Confirmed;
    ReadyIsConfirmed(s, attackId, roundId);
    ConfirmedStays(s, Apply(s, ManagerActs(M.ReadyReceived(attackId, roundId), links)), attackId);
  }

  // ----- A stale ready flag -----

  lemma Extend(events: seq<Event>, s: System, e: Event)
    requires Execute(events) == Some(s) && Enabled(s, e)
    ensures Execute(events + [e]) == Some(Apply(s, e))
  {
    assert (events + [e])[..|events|] == events;
  }

  const LINKS := M.Links(true, {M.Name(5)})
  const CONTEXT := M.AttackContext(M.Name(0), M.Name(1), 7, false, 10, 0, 0)
  const PLAN := M.Plan(1, M.Name(0), M.Name(1), 7, M.Tamper, [1])
  const ANSWER := Ack(M.Name(5), 0, M.Name(0), true)

  /** A context is prepared and a tamper plan submitted for it. */
  const SUBMITTED := [ManagerActs(M.PrepareContext(true, CONTEXT), LINKS)] +
                     [EndpointReceives(M.RoundContext(CONTEXT), 0)] +
                     [Submit(M.Tamper, [1], false, 1, true)]

  /** The manager picks the only Receiver, which confirms its mapping, and the endpoint is told. */
  const CONFIRMED := SUBMITTED + [ManagerActs(M.PlanReceived(PLAN, [M.Name(5)]), LINKS)] + [ReceiverAnswers(ANSWER)] +
                     [ManagerActs(M.AckReceived(M.Name(5), 0, M.Name(0), true), LINKS)] +
                     [EndpointReceives(M.PlanDecision(1, M.Name(0), true), 0)]

  lemma SubmittedRuns() returns (s: System)
    ensures Execute(SUBMITTED) == Some(s)
    ensures s.manager == M.INITIAL.(context := Some(CONTEXT), contextSent := true)
    ensures s.endpoint == E.Endpoint(Some(CONTEXT), Some(PLAN), M.PlanPending, 2) && s.plansInFlight == {PLAN}
    ensures s.chosen == map[] && s.clearedFor == {} && s.reports == {}
  {
    var e0, e1 := ManagerActs(M.PrepareContext(true, CONTEXT), LINKS), EndpointReceives(M.RoundContext(CONTEXT), 0);
    var e2 := Submit(M.Tamper, [1], false, 1, true);
    assert Execute([]) == Some(INITIAL) && [] + [e0] == [e0];
    hide Execute;
    var s0 := Apply(INITIAL, e0);
    Extend([], INITIAL, e0);
    var s1 := Apply(s0, e1);
    Extend([e0], s0, e1);
    Extend([e0] + [e1], s1, e2);
    s := Apply(s1, e2);
  }

  lemma InstalledRuns() returns (s: System)
    ensures Execute(SUBMITTED + [ManagerActs(M.PlanReceived(PLAN, [M.Name(5)]), LINKS)]) == Some(s)
    ensures s.manager == M.Manager(Some(CONTEXT), true, Some(PLAN), true, false, false, false, {M.Name(5)},
                                   map[0 := M.Name(5)], 1)
    ensures s.endpoint == E.Endpoint(Some(CONTEXT), Some(PLAN), M.PlanPending, 2) && M.Install(0, M.Name(5)) in s.outs
  {
    var s0 := SubmittedRuns();
    var e := ManagerActs(M.PlanReceived(PLAN, [M.Name(5)]), LINKS);
    hide Execute;
    InstallsOne(s0.manager.(plan := Some(PLAN), planPending := true));
    s := Apply(s0, e);
    Extend(SUBMITTED, s0, e);
    hide M.InstallMappings, Chosen;
  }

  lemma ConfirmedRuns() returns (s: System)
    ensures Execute(CONFIRMED) == Some(s)
    ensures s.manager.plan == Some(PLAN) && s.manager.context == Some(CONTEXT) && s.manager.mappingsInstalled
    ensures M.ReadyReport(1, M.Name(0)) in s.reports
  {
    var s1 := InstalledRuns();
    var e0, e1 := ManagerActs(M.PlanReceived(PLAN, [M.Name(5)]), LINKS), ReceiverAnswers(ANSWER);
    var e2 := ManagerActs(M.AckReceived(M.Name(5), 0, M.Name(0), true), LINKS);
    var e3 := EndpointReceives(M.PlanDecision(1, M.Name(0), true), 0);
    hide Execute;
    var s2 := Apply(s1, e1);
    Extend(SUBMITTED + [e0], s1, e1);
    var s3 := Apply(s2, e2);
    assert s1.manager.pending - {0} == map[];
    Extend(SUBMITTED + [e0] + [e1], s2, e2);
    Extend(SUBMITTED + [e0] + [e1] + [e2], s3, e3);
    s := Apply(s3, e3);
  }

  lemma InstallsOne(m: M.Manager)
    requires m == M.INITIAL.(context := Some(CONTEXT), contextSent := true, plan := Some(PLAN), planPending := true)
    ensures M.InstallMappings(m, [M.Name(5)], LINKS) ==
            M.InstallOutcome(true, m.(receivers := {M.Name(5)}, pending := map[0 := M.Name(5)], nextRequest := 1),
                             {M.Install(0, M.Name(5))})
  {
    var order := [M.Name(5)];
    assert M.ReachableFrom(order, {M.Name(5)}) == 1 by { assert order[1..] == []; }
    assert M.Members(order) == {M.Name(5)};
    assert M.Requests(order, 1, 0) == map[0 := M.Name(5)];
    assert M.Installs(order, 1, 0) == {M.Install(0, M.Name(5))};
    hide M.ReachableFrom, M.Members, M.Requests, M.Installs;
  }

  /** A run in which the manager shows a ready plan without any mapping: the round is stopped after the plan was
      accepted, and the ready report of the test endpoint arrives after the stop. */
  lemma ReadyFlagCanBeStale() returns (s: System)
    ensures Execute(CONFIRMED + [ManagerActs(M.StopRound(false), LINKS)] +
                    [ManagerActs(M.ReadyReceived(1, M.Name(0)), LINKS)]) == Some(s)
    ensures s.manager.plan == Some(PLAN) && s.manager.ready && !s.manager.mappingsInstalled && s.manager.receivers == {}
  {
    var s0 := ConfirmedRuns();
    var e0, e1 := ManagerActs(M.StopRound(false), LINKS), ManagerActs(M.ReadyReceived(1, M.Name(0)), LINKS);
    hide Execute;
    var s1 := Apply(s0, e0);
    Extend(CONFIRMED, s0, e0);
    Extend(CONFIRMED + [e0], s1, e1);
    s := Apply(s1, e1);
  }
}
