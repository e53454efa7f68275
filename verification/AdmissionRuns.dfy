/** Whole robustness tests: a usable plan gets from its submission to a running attack, and a stop ends it for good. */
module AdmissionRuns {
  import opened Bytes
  import M = ManagerExperiment
  import E = AttackEndpoint
  import opened Admission

  /** One attack on a round: the context the manager prepares, what the user of the test endpoint submits, and the
      Receivers that the manager picks. */
  datatype Attack = Attack(context: M.AttackContext, kind: M.PlanKind, targets: seq<nat>, confirmed: bool,
                           order: seq<M.Name>)
  {
    /** What a submission has to satisfy. A flood needs no targets and no Receivers. */
    ghost predicate Usable() {
      && (context.improved ==> context.groupSize > 0)
      && (kind != M.Dos ==>
            && order != [] && M.NoRepeats(order)
            && forall i :: 0 <= i < |targets| ==> 0 < targets[i] <= context.packetCount)
      && (kind == M.Tamper && context.improved && !confirmed ==>
            !E.ThresholdExceeded(targets, context.groupSize, context.threshold))
    }

    function Links(): M.Links {
      M.Links(true, M.Members(order))
    }

    function PlanWith(id: nat): M.Plan {
      M.Plan(id, context.roundId, context.senderId, context.chainId, kind, targets)
    }

    function Picked(): set<M.Name> {
      if kind == M.Dos then {} else M.Members(order)
    }
  }

  // ----- Up to the arrival of the plan -----

  ghost predicate Reached(events: seq<Event>, s: System) {
    Execute(events) == Some(s)
  }

  lemma Then(events: seq<Event>, s: System, e: Event) returns (more: seq<Event>, t: System)
    requires Reached(events, s) && Enabled(s, e)
    ensures more == events + [e] && t == Apply(s, e) && Reached(more, t)
  {
    Extend(events, s, e);
    more, t := events + [e], Apply(s, e);
  }

  /** The manager holds the context and nothing else, and the test endpoint knows it. */
  ghost predicate Configured(s: System, a: Attack, base: nat) {
    && s.manager == M.INITIAL.(context := Some(a.context), contextSent := true, nextRequest := base)
    && s.endpoint.context == Some(a.context) && s.endpoint.plan == None && s.endpoint.state == M.ContextReady
  }

  lemma ContextArrives(events: seq<Event>, s: System, a: Attack) returns (more: seq<Event>, t: System)
    requires Reached(events, s)
    ensures Reached(more, t) && Configured(t, a, s.manager.nextRequest)
    ensures t.endpoint.nextAttackId == s.endpoint.nextAttackId && events <= more
  {
    hide Reached, M.ClearMappings;
    more, t := Then(events, s, ManagerActs(M.PrepareContext(true, a.context), a.Links()));
    more, t := Then(more, t, EndpointReceives(M.RoundContext(a.context), 0));
  }

  lemma PlanIsSubmitted(events: seq<Event>, s: System, a: Attack, base: nat) returns (more: seq<Event>, t: System)
    requires Reached(events, s) && Configured(s, a, base) && a.Usable()
    ensures Reached(more, t) && t.manager == s.manager && events <= more
    ensures a.PlanWith(s.endpoint.nextAttackId) in t.plansInFlight
    ensures t.endpoint.plan == Some(a.PlanWith(s.endpoint.nextAttackId)) && t.endpoint.state == M.PlanPending
  {
    hide Reached, E.ThresholdExceeded;
    more, t := Then(events, s, Submit(a.kind, a.targets, a.confirmed, 1, true));
  }

  // ----- The mappings -----

  /** The requests that are open after the first i Receivers have answered. */
  function Open(order: seq<M.Name>, base: nat, i: nat): (open: map<nat, M.Name>)
    ensures forall q :: q in open <==> base + i <= q < base + |order|
    ensures forall q :: q in open ==> open[q] == order[q - base]
    decreases |order| - i
  {
    if i >= |order| then map[] else Open(order, base, i + 1)[base + i := order[i]]
  }

  lemma {:induction false} AllOpen(order: seq<M.Name>, n: nat, base: nat)
    requires n <= |order|
    ensures forall q :: q in M.Requests(order, n, base) ==> M.Requests(order, n, base)[q] == order[q - base]
  {
    if n > 0 { AllOpen(order, n - 1, base); }
  }

  lemma {:induction false} AllReachable(order: seq<M.Name>, nodes: set<M.Name>)
    requires forall r :: r in order ==> r in nodes
    ensures M.ReachableFrom(order, nodes) == |order|
  {
    if order != [] { AllReachable(order[1..], nodes); }
  }

  lemma {:induction false} InstallSent(order: seq<M.Name>, n: nat, base: nat, k: nat)
    requires k < n <= |order|
    ensures M.Install(base + k, order[k]) in M.Installs(order, n, base)
  {
    if k < n - 1 { InstallSent(order, n - 1, base, k); }
  }

  /** The manager holds the plan and waits for the Receivers from number i on; when all have answered it has told the
      test endpoint. */
  ghost predicate Answered(s: System, a: Attack, plan: M.Plan, base: nat, i: nat) {
    && s.manager == M.Manager(Some(a.context), true, Some(plan), true, false, false, i == |a.order|,
                              M.Members(a.order), Open(a.order, base, i), base + |a.order|)
    && (forall k: nat :: k < |a.order| ==> M.Install(base + k, a.order[k]) in s.outs)
    && (i == |a.order| ==> M.ToTest(M.PlanDecision(plan.attackId, plan.roundId, true)) in s.outs)
  }

  lemma RequestsAreOpen(order: seq<M.Name>, base: nat)
    ensures map[] + M.Requests(order, |order|, base) == Open(order, base, 0)
  {
    AllOpen(order, |order|, base);
    hide M.Requests, Open;
  }

  lemma EveryInstallIsSent(order: seq<M.Name>, base: nat)
    ensures forall k: nat :: k < |order| ==> M.Install(base + k, order[k]) in M.Installs(order, |order|, base)
  {
    hide M.Installs;
    forall k: nat | k < |order| ensures M.Install(base + k, order[k]) in M.Installs(order, |order|, base) {
      InstallSent(order, |order|, base, k);
    }
  }

  lemma MappingsAreSent(m: M.Manager, a: Attack, plan: M.Plan)
    requires m.context.Some? && m.plan.Some? && m.pending == map[] && a.order != []
    ensures var i := M.InstallMappings(m, a.order, a.Links());
            && i.ok && i.after == m.(receivers := M.Members(a.order), pending := Open(a.order, m.nextRequest, 0),
                                     nextRequest := m.nextRequest + |a.order|)
            && forall k: nat :: k < |a.order| ==> M.Install(m.nextRequest + k, a.order[k]) in i.sent
  {
    hide M.Requests, M.ReachableFrom, M.Installs, Open, M.Members;
    AllReachable(a.order, a.Links().nodes) by { AllMembers(a.order); }
    RequestsAreOpen(a.order, m.nextRequest);
    EveryInstallIsSent(a.order, m.nextRequest);
  }

  lemma AllMembers(order: seq<M.Name>)
    ensures forall r :: r in order ==> r in M.Members(order)
  {
  }

  lemma MappingsAreInstalled(events: seq<Event>, s: System, a: Attack, base: nat, plan: M.Plan)
    returns (more: seq<Event>, t: System)
    requires Reached(events, s) && a.Usable() && a.kind != M.Dos && plan in s.plansInFlight
    requires plan == a.PlanWith(plan.attackId)
    requires s.manager == M.INITIAL.(context := Some(a.context), contextSent := true, nextRequest := base)
    ensures Reached(more, t) && Answered(t, a, plan, base, 0) && t.endpoint == s.endpoint && events <= more
  {
    hide Reached, M.InstallMappings, Chosen, Open;
    var held := s.manager.(plan := Some(plan), planPending := true);
    MappingsAreSent(held, a, plan);
    more, t := Then(events, s, ManagerActs(M.PlanReceived(plan, a.order), a.Links()));
  }

  lemma NextAnswer(order: seq<M.Name>, base: nat, i: nat)
    requires i < |order|
    ensures base + i in Open(order, base, i) && Open(order, base, i)[base + i] == order[i]
    ensures Open(order, base, i) - {base + i} == Open(order, base, i + 1)
    ensures Open(order, base, i + 1) == map[] <==> i + 1 == |order|
  {
    if i + 1 < |order| { assert base + i + 1 in Open(order, base, i + 1); }
  }

  lemma OneAnswer(events: seq<Event>, s: System, a: Attack, plan: M.Plan, base: nat, i: nat)
    returns (more: seq<Event>, t: System)
    requires Reached(events, s) && Answered(s, a, plan, base, i) && i < |a.order|
    ensures Reached(more, t) && Answered(t, a, plan, base, i + 1) && t.endpoint == s.endpoint && events <= more
  {
    hide Reached, Open, M.Members, M.Manager.Valid;
    var answer := Ack(a.order[i], base + i, a.context.roundId, true);
    NextAnswer(a.order, base, i);
    more, t := Then(events, s, ReceiverAnswers(answer));
    more, t := Then(more, t,
      ManagerActs(M.AckReceived(answer.receiver, answer.request, answer.roundId, true), a.Links()));
  }

  lemma {:induction false} AllAnswer(events: seq<Event>, s: System, a: Attack, plan: M.Plan, base: nat, i: nat)
    returns (more: seq<Event>, t: System)
    requires Reached(events, s) && Answered(s, a, plan, base, i) && i <= |a.order|
    ensures Reached(more, t) && Answered(t, a, plan, base, |a.order|) && t.endpoint == s.endpoint && events <= more
    decreases |a.order| - i
  {
    hide Reached, Answered;
    if i == |a.order| { return events, s; }
    more, t := OneAnswer(events, s, a, plan, base, i);
    more, t := AllAnswer(more, t, a, plan, base, i + 1);
  }

  // ----- From the decision to the running attack -----

  /** The manager holds the plan, with its mappings in place, and has told the test endpoint. */
  ghost predicate Decided(s: System, a: Attack, plan: M.Plan) {
    && s.manager.plan == Some(plan) && s.manager.context == Some(a.context) && !s.manager.ready && !s.manager.running
    && s.manager.receivers == a.Picked() && s.manager.pending == map[]
    && (a.kind != M.Dos ==> s.manager.mappingsInstalled)
    && M.ToTest(M.PlanDecision(plan.attackId, plan.roundId, true)) in s.outs
  }

  lemma PlanIsDecided(events: seq<Event>, s: System, a: Attack, base: nat, plan: M.Plan)
    returns (more: seq<Event>, t: System)
    requires Reached(events, s) && a.Usable() && plan in s.plansInFlight && plan == a.PlanWith(plan.attackId)
    requires s.manager == M.INITIAL.(context := Some(a.context), contextSent := true, nextRequest := base)
    ensures Reached(more, t) && Decided(t, a, plan) && t.endpoint == s.endpoint && events <= more
  {
    hide Reached, M.InstallMappings;
    if a.kind == M.Dos {
      more, t := Then(events, s, ManagerActs(M.PlanReceived(plan, []), a.Links()));
    } else {
      hide M.Members;
      more, t := MappingsAreInstalled(events, s, a, base, plan);
      more, t := AllAnswer(more, t, a, plan, base, 0);
    }
  }

  /** The attack runs: the test endpoint executes the plan, the manager knows that it runs, and every picked Receiver
      has its mapping. */
  ghost predicate Runs(s: System, a: Attack, plan: M.Plan) {
    && s.endpoint.state == M.Running && s.endpoint.plan == Some(plan)
    && s.manager.running && s.manager.ready && s.manager.plan == Some(plan) && s.manager.receivers == a.Picked()
  }

  lemma StartIsSent(events: seq<Event>, s: System, a: Attack, plan: M.Plan, now: nat, start: nat)
    returns (more: seq<Event>, t: System)
    requires Reached(events, s) && Decided(s, a, plan) && start > now + 100
    requires s.endpoint.plan == Some(plan) && s.endpoint.state == M.PlanPending
    ensures Reached(more, t) && t.endpoint == s.endpoint.(state := M.Ready) && events <= more
    ensures t.manager == s.manager.(ready := true, planPending := false, running := true)
    ensures M.ToTest(M.RoundStart(plan.attackId, plan.roundId, start)) in t.outs
  {
    hide Reached;
    more, t := Then(events, s, EndpointReceives(M.PlanDecision(plan.attackId, plan.roundId, true), now));
    more, t := Then(more, t, ManagerActs(M.ReadyReceived(plan.attackId, plan.roundId), a.Links()));
    more, t := Then(more, t, ManagerActs(M.StartRound(now, start), a.Links()));
  }

  /** From every run, whatever it left behind: a usable attack can be prepared, submitted, confirmed by every picked
      Receiver, accepted and started, and then it runs. The start has to be more than 100 ms ahead of both clocks. */
  lemma AttackCanRun(events: seq<Event>, a: Attack, now: nat, start: nat, arrival: nat)
    returns (more: seq<Event>, t: System)
    requires Execute(events).Some? && a.Usable() && start > now + 100 && start > arrival + 100
    ensures events <= more && Execute(more) == Some(t)
    ensures Runs(t, a, a.PlanWith(Execute(events).value.endpoint.nextAttackId))
  {
    var s := Execute(events).value;
    var plan := a.PlanWith(s.endpoint.nextAttackId);
    assert Reached(events, s);
    hide Reached, Decided, Attack.Usable, Attack.Links;
    more, t := ContextArrives(events, s, a);
    more, t := PlanIsSubmitted(more, t, a, s.manager.nextRequest);
    more, t := PlanIsDecided(more, t, a, s.manager.nextRequest, plan);
    var decided := t;
    more, t := StartIsSent(more, t, a, plan, now, start);
    assert t.manager.receivers == a.Picked() && t.manager.plan == Some(plan) by { assert Decided(decided, a, plan); }
    hide Attack.Picked, M.Step;
    more, t := Then(more, t, EndpointReceives(M.RoundStart(plan.attackId, plan.roundId, start), arrival));
    more, t := Then(more, t, WorkerStarts);
    assert Execute(more) == Some(t) by { ReachedRuns(more, t); }
  }

  lemma ReachedRuns(events: seq<Event>, s: System)
    requires Reached(events, s)
    ensures Execute(events) == Some(s)
  {
  }

  /** A running attack can end: the test endpoint reports that it completed, and the manager, once it hears of it, no
      longer counts it as running and has attempted to clear the mapping of every picked Receiver. */
  lemma AttackCompletes(events: seq<Event>, s: System, a: Attack, plan: M.Plan)
    returns (more: seq<Event>, t: System)
    requires Reached(events, s) && Runs(s, a, plan) && s.manager.context.Some?
    ensures Reached(more, t) && events <= more && t.endpoint.state == M.Completed && t.endpoint.plan == Some(plan)
    ensures !t.manager.running && !t.manager.ready && t.manager.receivers == {} && !t.manager.mappingsInstalled
    ensures forall r :: r in a.Picked() ==> M.Clear(r) in t.outs
  {
    hide Reached, Attack.Picked;
    more, t := Then(events, s, WorkerCompletes);
    more, t := Then(more, t, StatusBroadcast);
    more, t := Then(more, t, ManagerActs(M.StatusReceived(plan.attackId, M.Completed), a.Links()));
  }

  // ----- What a submission does -----

  /** A submission puts a new plan in flight if and only if one manager is greeted, the link is up and the plan fits the
      context of the endpoint: nothing is scheduled or running, the targets of a tamper or replay plan lie within the
      round, and no group of a tamper plan has more targets than the threshold unless the user confirmed that. The plan
      names the round, sender and chain of that context and a number that no plan had before. */
  lemma SubmittedIff(s: System, kind: M.PlanKind, targets: seq<nat>, confirmed: bool, managers: nat, linkUp: bool)
    requires Enabled(s, Submit(kind, targets, confirmed, managers, linkUp)) && Inv(s)
    ensures var t := Apply(s, Submit(kind, targets, confirmed, managers, linkUp));
            var c := s.endpoint.context;
            && (t.plansInFlight != s.plansInFlight <==>
                  && managers == 1 && linkUp && c.Some? && s.endpoint.state !in {M.Scheduled, M.Running}
                  && (kind != M.Dos ==> forall i :: 0 <= i < |targets| ==> 1 <= targets[i] <= c.value.packetCount)
                  && (kind == M.Tamper && c.value.improved && !confirmed ==>
                        !E.ThresholdExceeded(targets, c.value.groupSize, c.value.threshold)))
            && (t.plansInFlight != s.plansInFlight ==>
                  var plan := M.Plan(s.endpoint.nextAttackId, c.value.roundId, c.value.senderId, c.value.chainId, kind,
                                     targets);
                  && t.plansInFlight == s.plansInFlight + {plan} && plan.attackId !in s.submitted
                  && t.endpoint.plan == Some(plan) && t.endpoint.state == M.PlanPending)
            && (t.plansInFlight == s.plansInFlight ==>
                  || (t.endpoint.plan == s.endpoint.plan && t.endpoint.state == s.endpoint.state)
                  || (!linkUp && t.endpoint.plan == None && t.endpoint.state == M.ContextReady))
            && t.endpoint.nextAttackId == s.endpoint.nextAttackId + if c.Some? && managers == 1 then 1 else 0
  {
    if s.endpoint.context.Some? {
      PreparableIff(s.endpoint, kind, targets, confirmed);
      NumberIsNew(s, E.NewPlan(s.endpoint, kind, targets));
    }
    hide Inv, E.ThresholdExceeded, E.Preparable;
  }

  lemma PreparableIff(e: E.Endpoint, kind: M.PlanKind, targets: seq<nat>, confirmed: bool)
    requires e.context.Some? && (e.context.value.improved ==> e.context.value.groupSize > 0)
    ensures E.Preparable(e, E.NewPlan(e, kind, targets), confirmed) <==>
            && e.state !in {M.Scheduled, M.Running}
            && (kind != M.Dos ==> forall i :: 0 <= i < |targets| ==> 1 <= targets[i] <= e.context.value.packetCount)
            && (kind == M.Tamper && e.context.value.improved && !confirmed ==>
                  !E.ThresholdExceeded(targets, e.context.value.groupSize, e.context.value.threshold))
  {
    hide E.ThresholdExceeded;
  }

  lemma NumberIsNew(s: System, plan: M.Plan)
    requires PlansOk(s) && plan.attackId == s.endpoint.nextAttackId
    ensures plan.attackId !in s.submitted && plan !in s.plansInFlight
  {
  }

  // ----- Stopping -----

  /** A stop at the manager with a held plan and the link up puts that stop in flight; once the endpoint receives it,
      from whatever state, it is not on its way to execution any more and says that it stopped. */
  lemma StopArrives(events: seq<Event>, s: System, emergency: bool, links: M.Links, now: nat)
    returns (more: seq<Event>, t: System)
    requires Reached(events, s) && s.manager.plan.Some? && links.testEndpoint && s.endpoint.Valid()
    ensures var plan := s.manager.plan.value;
            more == events + [ManagerActs(M.StopRound(emergency), links)] +
                    [EndpointReceives(M.Stop(plan.attackId, plan.roundId, emergency), now)]
    ensures Reached(more, t) && !t.endpoint.Admitted() && t.endpoint.plan == s.endpoint.plan
    ensures s.endpoint.state in {M.PlanPending, M.Ready, M.Scheduled, M.Running} ==>
              && t.endpoint.state == M.Stopped
              && M.StatusReport(s.endpoint.plan.value.attackId, M.Stopped) in t.reports
    ensures !t.manager.running && !t.manager.ready && t.manager.plan == s.manager.plan && t.manager.pending == map[]
  {
    hide Reached, M.Clears;
    var plan := s.manager.plan.value;
    more, t := Then(events, s, ManagerActs(M.StopRound(emergency), links));
    more, t := Then(more, t, EndpointReceives(M.Stop(plan.attackId, plan.roundId, emergency), now));
  }

  /** A stop reaches the endpoint, from the manager or from its own user. */
  predicate StopsEndpoint(e: Event) {
    e.LocalStop? || (e.EndpointReceives? && e.message.Stop?)
  }

  predicate Accepting(e: Event, plan: M.Plan) {
    e.EndpointReceives? && e.message == M.PlanDecision(plan.attackId, plan.roundId, true)
  }

  predicate Starting(e: Event, plan: M.Plan) {
    && e.EndpointReceives? && e.message.RoundStart? && e.message.at > e.now + 100
    && e.message.attackId == plan.attackId && e.message.roundId == plan.roundId
  }

  /** A submission, then the acceptance of the plan, then its start, in this order. */
  ghost predicate Handshake(events: seq<Event>, plan: M.Plan) {
    exists i, j, k :: 0 <= i < j < k < |events| &&
      events[i].Submit? && Accepting(events[j], plan) && Starting(events[k], plan)
  }

  ghost predicate Acceptance(events: seq<Event>, plan: M.Plan) {
    exists i, j :: 0 <= i < j < |events| && events[i].Submit? && Accepting(events[j], plan)
  }

  ghost predicate Submission(events: seq<Event>) {
    exists i :: 0 <= i < |events| && events[i].Submit?
  }

  /** How far the endpoint can have got by some events after a stop: every step of the handshake has to be made again,
      for a plan with a new number. */
  ghost predicate Again(events: seq<Event>, e: E.Endpoint, first: nat) {
    && e.Valid() && first <= e.nextAttackId
    && (e.state in {M.PlanPending, M.Ready, M.Scheduled, M.Running} ==> first <= e.plan.value.attackId)
    && (e.state == M.PlanPending ==> Submission(events))
    && (e.state == M.Ready ==> Acceptance(events, e.plan.value))
    && (e.state in {M.Scheduled, M.Running} ==> Handshake(events, e.plan.value))
  }

  lemma EvidenceStays(events: seq<Event>, e: Event, plan: M.Plan)
    ensures Submission(events) ==> Submission(events + [e])
    ensures Acceptance(events, plan) ==> Acceptance(events + [e], plan)
    ensures Handshake(events, plan) ==> Handshake(events + [e], plan)
    ensures e.Submit? ==> Submission(events + [e])
    ensures Submission(events) && Accepting(e, plan) ==> Acceptance(events + [e], plan)
    ensures Acceptance(events, plan) && Starting(e, plan) ==> Handshake(events + [e], plan)
  {
    var more, n := events + [e], |events|;
    assert more[n] == e && forall i :: 0 <= i < n ==> more[i] == events[i];
    if Submission(events) {
      var i :| 0 <= i < n && events[i].Submit?;
      assert more[i].Submit?;
    }
    AcceptanceStays(events, e, plan);
    HandshakeStays(events, e, plan);
    hide Acceptance, Handshake, Accepting, Starting;
  }

  lemma AcceptanceStays(events: seq<Event>, e: Event, plan: M.Plan)
    ensures Acceptance(events, plan) ==> Acceptance(events + [e], plan)
    ensures Submission(events) && Accepting(e, plan) ==> Acceptance(events + [e], plan)
  {
    var more, n := events + [e], |events|;
    assert more[n] == e && forall i :: 0 <= i < n ==> more[i] == events[i];
    if Acceptance(events, plan) {
      var i, j :| 0 <= i < j < n && events[i].Submit? && Accepting(events[j], plan);
      assert more[i].Submit? && Accepting(more[j], plan);
    }
    if Submission(events) && Accepting(e, plan) {
      var i :| 0 <= i < n && events[i].Submit?;
      assert more[i].Submit? && Accepting(more[n], plan);
    }
  }

  lemma HandshakeStays(events: seq<Event>, e: Event, plan: M.Plan)
    ensures Handshake(events, plan) ==> Handshake(events + [e], plan)
    ensures Acceptance(events, plan) && Starting(e, plan) ==> Handshake(events + [e], plan)
  {
    hide Accepting, Starting;
    if Handshake(events, plan) { LongerHandshake(events, e, plan); }
    if Acceptance(events, plan) && Starting(e, plan) { LastStart(events, e, plan); }
    hide Handshake, Acceptance;
  }

  lemma LongerHandshake(events: seq<Event>, e: Event, plan: M.Plan)
    requires Handshake(events, plan)
    ensures Handshake(events + [e], plan)
  {
    hide Accepting, Starting;
    var n := |events|;
    var i, j, k :| 0 <= i < j < k < n && events[i].Submit? && Accepting(events[j], plan) && Starting(events[k], plan);
    hide Handshake;
    var more := events + [e];
    assert more[i] == events[i] && more[j] == events[j] && more[k] == events[k];
    HandshakeAt(more, plan, i, j, k);
  }

  lemma LastStart(events: seq<Event>, e: Event, plan: M.Plan)
    requires Acceptance(events, plan) && Starting(e, plan)
    ensures Handshake(events + [e], plan)
  {
    hide Accepting, Starting;
    var n := |events|;
    var i, j :| 0 <= i < j < n && events[i].Submit? && Accepting(events[j], plan);
    hide Handshake, Acceptance;
    var more := events + [e];
    assert more[i] == events[i] && more[j] == events[j] && more[n] == e;
    HandshakeAt(more, plan, i, j, n);
  }

  lemma HandshakeAt(events: seq<Event>, plan: M.Plan, i: nat, j: nat, k: nat)
    requires i < j < k < |events| && events[i].Submit? && Accepting(events[j], plan) && Starting(events[k], plan)
    ensures Handshake(events, plan)
  {
  }

  lemma ReceivedEvidence(events: seq<Event>, s: System, e: Event, first: nat)
    requires Again(events, s.endpoint, first) && e.EndpointReceives? && Enabled(s, e)
    ensures Again(events + [e], Apply(s, e).endpoint, first)
  {
    hide Submission, Acceptance, Handshake, M.Step;
    if s.endpoint.plan.Some? { EvidenceStays(events, e, s.endpoint.plan.value); }
  }

  lemma SubmittedEvidence(events: seq<Event>, s: System, e: Event, first: nat)
    requires Again(events, s.endpoint, first) && e.Submit? && Enabled(s, e)
    ensures Again(events + [e], Apply(s, e).endpoint, first)
  {
    hide Submission, Acceptance, Handshake, M.Step, E.IndexesValid, E.ThresholdExceeded;
    EvidenceStays(events, e, M.Plan(0, M.Name(0), M.Name(0), 0, M.Dos, []));
    if s.endpoint.plan.Some? { EvidenceStays(events, e, s.endpoint.plan.value); }
  }

  lemma LocalEvidence(events: seq<Event>, s: System, e: Event, first: nat)
    requires Again(events, s.endpoint, first) && !e.Submit? && !e.EndpointReceives? && Enabled(s, e)
    ensures Again(events + [e], Apply(s, e).endpoint, first)
  {
    hide Submission, Acceptance, Handshake, M.Step;
    EvidenceStays(events, e, M.Plan(0, M.Name(0), M.Name(0), 0, M.Dos, []));
    if s.endpoint.plan.Some? { EvidenceStays(events, e, s.endpoint.plan.value); }
  }

  lemma OneMoreEvent(events: seq<Event>, s: System, e: Event, first: nat)
    requires Again(events, s.endpoint, first) && Enabled(s, e)
    ensures Again(events + [e], Apply(s, e).endpoint, first)
  {
    hide Again, Enabled, Apply;
    if e.EndpointReceives? {
      ReceivedEvidence(events, s, e, first);
    } else if e.Submit? {
      SubmittedEvidence(events, s, e, first);
    } else {
      LocalEvidence(events, s, e, first);
    }
  }

  lemma StoppedAtFirst(s: System, stop: Event)
    requires StopsEndpoint(stop) && Enabled(s, stop) && s.endpoint.Valid()
    ensures Again([], Apply(s, stop).endpoint, s.endpoint.nextAttackId)
  {
    hide M.Step;
  }

  lemma {:induction false} AgainInRun(before: seq<Event>, stop: Event, after: seq<Event>)
    requires StopsEndpoint(stop) && Execute(before + [stop] + after).Some?
    ensures Execute(before).Some?
    ensures Again(after, Execute(before + [stop] + after).value.endpoint, Execute(before).value.endpoint.nextAttackId)
  {
    hide Again, Enabled, Apply, Inv;
    var events := before + [stop] + after;
    if after == [] {
      assert events[..|events| - 1] == before && events[|events| - 1] == stop;
      RunKeepsInv(before);
      EndpointValid(Execute(before).value);
      StoppedAtFirst(Execute(before).value, stop);
    } else {
      var n := |after| - 1;
      assert events[..|events| - 1] == before + [stop] + after[..n] && events[|events| - 1] == after[n];
      AgainInRun(before, stop, after[..n]);
      assert after == after[..n] + [after[n]];
      OneMoreEvent(after[..n], Execute(before + [stop] + after[..n]).value, after[n],
                   Execute(before).value.endpoint.nextAttackId);
    }
  }

  lemma EndpointValid(s: System)
    requires Inv(s)
    ensures s.endpoint.Valid()
  {
  }

  /** In every run, what the endpoint is scheduled for or executes after it was stopped is a plan that was submitted
      after the stop, accepted after that and started after that, by messages that name it. */
  lemma StartsAnew(before: seq<Event>, stop: Event, after: seq<Event>)
    requires StopsEndpoint(stop) && Execute(before + [stop] + after).Some?
    requires Execute(before + [stop] + after).value.endpoint.state in {M.Scheduled, M.Running}
    ensures var e := Execute(before + [stop] + after).value.endpoint;
            && Execute(before).Some? && e.plan.Some? && Handshake(after, e.plan.value)
            && e.plan.value.attackId >= Execute(before).value.endpoint.nextAttackId
  {
    AgainInRun(before, stop, after);
    hide Execute, Handshake;
  }

  /** So a stopped endpoint starts no attack until a new plan was submitted, accepted and started. */
  lemma NothingStartsAfterStop(before: seq<Event>, stop: Event, after: seq<Event>)
    requires StopsEndpoint(stop) && Execute(before + [stop] + after).Some?
    requires forall plan: M.Plan :: !Handshake(after, plan)
    ensures !Enabled(Execute(before + [stop] + after).value, WorkerStarts)
  {
    if Execute(before + [stop] + after).value.endpoint.state == M.Scheduled { StartsAnew(before, stop, after); }
    hide Execute, Handshake;
  }
}
