/** The manager's experiment controller as an object: its handlers update the fields step by step, and each is proved
    to do what the transition function of ManagerExperiment says. */
module ManagerController {
  import opened Bytes
  import M = ManagerExperiment

  class ExperimentController {
    var context: Option<M.AttackContext>
    var contextSent: bool
    var plan: Option<M.Plan>
    var planPending: bool
    var ready: bool
    var running: bool
    var mappingsInstalled: bool
    var receivers: set<M.Name>
    var pending: map<nat, M.Name>
    var nextRequest: nat
    /** Everything sent so far. */
    var outbox: set<M.Output>
    /** The Receivers sent an Install without a later Clear attempt. */
    ghost var outstanding: set<M.Name>

    function State(): M.Manager
      reads this
    {
      M.Manager(context, contextSent, plan, planPending, ready, running, mappingsInstalled, receivers, pending,
        nextRequest)
    }

    ghost predicate Valid()
      reads this
    {
      State().Valid() && outstanding <= receivers
    }

    constructor ()
      ensures Valid() && State() == M.INITIAL && outbox == {}
    {
      context, contextSent, plan, planPending, ready, running := None, false, None, false, false, false;
      mappingsInstalled, receivers, pending, nextRequest, outbox, outstanding := false, {}, map[], 0, {}, {};
    }

    /** The new state and everything sent are those of the outcome. */
    twostate predicate Performs(o: M.Outcome)
      reads this
    {
      State() == o.after && outbox == old(outbox) + o.sent && outstanding == old(outstanding)
    }

    method SendToTest(message: M.ToEndpoint, links: M.Links) returns (sent: bool)
      modifies `outbox
      ensures sent == links.testEndpoint && outbox == old(outbox) + M.ToTestIf(links.testEndpoint, message)
    {
      if !links.testEndpoint { return false; }
      outbox := outbox + {M.ToTest(message)};
      sent := true;
    }

    /** Attempts a Clear for each Receiver; whether the send succeeds does not matter. */
    method SendClears()
      modifies `outbox
      ensures outbox == old(outbox) + M.Clears(receivers)
    {
      var left := receivers;
      assert M.Clears(receivers - left) == {};
      hide M.Clears;
      while left != {}
        invariant left <= receivers && outbox == old(outbox) + M.Clears(receivers - left)
        decreases |left|
      {
        var receiver :| receiver in left;
        NextClear(receivers, left, receiver);
        outbox := outbox + {M.Clear(receiver)};
        left := left - {receiver};
      }
      assert receivers - {} == receivers;
    }

    method ClearSourceMappings()
      modifies this
      ensures Performs(M.ClearMappings(old(State())))
    {
      pending := map[];
      if context == None || receivers == {} {
        mappingsInstalled := false;
        assert M.Clears({}) == {};
        return;
      }
      SendClears();
      receivers := {};
      mappingsInstalled := false;
    }

    method SendPlanDecision(accepted: bool, links: M.Links) returns (sent: bool)
      modifies `outbox
      ensures sent == (plan.Some? && links.testEndpoint)
      ensures outbox == old(outbox) + if plan.Some?
                                      then M.ToTestIf(links.testEndpoint,
                                        M.PlanDecision(plan.value.attackId, plan.value.roundId, accepted))
                                      else {}
    {
      if plan == None { return false; }
      sent := SendToTest(M.PlanDecision(plan.value.attackId, plan.value.roundId, accepted), links);
    }

    method RejectCurrentPlan(links: M.Links)
      modifies this
      ensures Performs(M.Reject(old(State()), links))
    {
      var _ := SendPlanDecision(false, links);
      ClearSourceMappings();
      plan := None;
      planPending, ready, running := false, false, false;
    }

    method ClearPreparedState(clearMappings: bool)
      modifies this
      ensures Performs(M.ClearPrepared(old(State()), clearMappings))
    {
      hide M.Clears;
      if clearMappings { ClearSourceMappings(); }
      context, plan, receivers, pending := None, None, {}, map[];
      contextSent, planPending, ready, running, mappingsInstalled := false, false, false, false, false;
    }

    /** Registers a fresh request for one Receiver and sends it; a failed send withdraws the request. */
    method InstallOne(receiver: M.Name, links: M.Links) returns (sent: bool)
      requires nextRequest !in pending
      modifies this
      ensures sent == (receiver in links.nodes) && outstanding == old(outstanding)
      ensures State() == Registered(old(State()), receiver, sent)
      ensures outbox == old(outbox) + if sent then {M.Install(old(State()).nextRequest, receiver)} else {}
    {
      var request := nextRequest;
      nextRequest := nextRequest + 1;
      pending := pending[request := receiver];
      if receiver !in links.nodes {
        pending := pending - {request};
        return false;
      }
      outbox := outbox + {M.Install(request, receiver)};
      sent := true;
    }

    /** Sends one Install after another and stops at the first failure. */
    method SendInstalls(order: seq<M.Name>, links: M.Links, ghost start: M.Manager) returns (ok: bool)
      requires State() == Midway(start, order, 0) && start.pending == map[]
      modifies this
      ensures outstanding == old(outstanding)
      ensures var n := M.ReachableFrom(order, links.nodes);
              && ok == (n == |order|) && outbox == old(outbox) + M.Installs(order, n, start.nextRequest)
              && State() == if ok then Midway(start, order, n) else Registered(Midway(start, order, n), order[n], false)
    {
      NothingInstalled(start, order);
      hide Midway, M.Installs, M.ReachableFrom, Registered;
      for i := 0 to |order|
        invariant i <= M.ReachableFrom(order, links.nodes)
        invariant State() == Midway(start, order, i)
        invariant outbox == old(outbox) + M.Installs(order, i, start.nextRequest)
        invariant outstanding == old(outstanding)
      {
        NextInstall(start, order, i);
        var sent := InstallOne(order[i], links);
        if !sent { return false; }
        ReachedSoFar(order, links.nodes, i);
      }
      ok := true;
    }

    /** Installs a mapping on every chosen Receiver; a failing send clears everything again. */
    method InstallSourceMappings(order: seq<M.Name>, links: M.Links) returns (ok: bool)
      requires pending == map[]
      modifies this
      ensures var i := M.InstallMappings(old(State()), order, links); ok == i.ok && Performs(M.Outcome(i.after, i.sent))
    {
      if context == None || plan == None { return false; }
      if order == [] { return false; }
      ghost var start := State();
      receivers := M.Members(order);
      NothingInstalled(start, order);
      hide M.ClearMappings, M.Clears, M.InstallMappings, M.Installs, Midway, Registered;
      ok := SendInstalls(order, links, start);
      InstallEnds(start, order, links);
      if !ok { ClearSourceMappings(); }
    }

    method PrepareContext(usable: bool, chosen: M.AttackContext, links: M.Links) returns (ok: bool)
      requires Valid()
      modifies this
      ensures Performs(M.Prepare(old(State()), usable, chosen, links)) && ok == (usable && links.testEndpoint)
    {
      if !usable { return false; }
      ClearPreparedState(true);
      context := Some(chosen);
      var sent := SendToTest(M.RoundContext(chosen), links);
      if !sent {
        ClearPreparedState(false);
        return false;
      }
      contextSent := true;
      ok := true;
    }

    method ProcessPlan(submitted: M.Plan, order: seq<M.Name>, links: M.Links)
      requires Valid()
      modifies this
      ensures Performs(M.HandlePlan(old(State()), submitted, order, links))
    {
      if !contextSent { return; }
      if plan.Some? {
        var _ := SendToTest(M.PlanDecision(submitted.attackId, submitted.roundId, false), links);
        return;
      }
      if context == None || !M.Matches(submitted, context.value) {
        plan := Some(submitted);
        RejectCurrentPlan(links);
        return;
      }
      plan := Some(submitted);
      planPending := true;
      if submitted.kind != M.Dos {
        var installed := InstallSourceMappings(order, links);
        if !installed { RejectCurrentPlan(links); }
        return;
      }
      var sent := SendPlanDecision(true, links);
      if !sent { RejectCurrentPlan(links); }
    }

    method ProcessReady(attackId: nat, roundId: M.Name)
      modifies this
      ensures State() == M.HandleReady(old(State()), attackId, roundId)
      ensures outbox == old(outbox) && outstanding == old(outstanding)
    {
      if plan.Some? && attackId == plan.value.attackId && roundId == plan.value.roundId {
        planPending := false;
        ready := true;
      }
    }

    method ProcessStatus(attackId: nat, state: M.ExecutionState)
      modifies this
      ensures Performs(M.HandleStatus(old(State()), attackId, state))
    {
      if plan == None || attackId != plan.value.attackId { return; }
      running := state == M.Scheduled || state == M.Running;
      if state == M.Completed || state == M.Stopped || state == M.Failed {
        ready := false;
        planPending := false;
        ClearSourceMappings();
      }
    }

    method ProcessAcknowledgement(receiver: M.Name, request: nat, roundId: M.Name, accepted: bool, links: M.Links)
      requires Valid()
      modifies this
      ensures Performs(M.HandleAck(old(State()), receiver, request, roundId, accepted, links))
    {
      if request !in pending || pending[request] != receiver || context == None || roundId != context.value.roundId {
        return;
      }
      pending := pending - {request};
      if !accepted {
        RejectCurrentPlan(links);
        return;
      }
      if pending == map[] {
        mappingsInstalled := true;
        var sent := SendPlanDecision(true, links);
        if !sent { RejectCurrentPlan(links); }
      }
    }

    method HandleNodesChanged(testConnected: bool, connected: set<M.Name>, links: M.Links)
      requires Valid()
      modifies this
      ensures Performs(M.HandleNodes(old(State()), testConnected, connected, links))
    {
      if !contextSent { return; }
      if !testConnected {
        ClearPreparedState(true);
        return;
      }
      if receivers <= connected { return; }
      if running {
        if plan.Some? {
          var _ := SendToTest(M.Stop(plan.value.attackId, plan.value.roundId, true), links);
        }
        ClearSourceMappings();
        running, ready, planPending := false, false, false;
      } else {
        RejectCurrentPlan(links);
      }
    }

    method StartPrepared(now: nat, start: nat, links: M.Links) returns (ok: bool)
      modifies this
      ensures Performs(M.StartPrepared(old(State()), now, start, links))
      ensures ok <==> old(ready && plan.Some?) && start > now + 100 && links.testEndpoint
    {
      if !ready || plan == None { return false; }
      if start <= now + 100 { return false; }
      ok := SendToTest(M.RoundStart(plan.value.attackId, plan.value.roundId, start), links);
      if ok { running := true; }
    }

    method StopPrepared(emergency: bool, links: M.Links) returns (ok: bool)
      requires Valid()
      modifies this
      ensures Performs(M.StopPrepared(old(State()), emergency, links))
    {
      if plan == None {
        if contextSent {
          ClearPreparedState(true);
          return true;
        }
        return false;
      }
      ok := SendToTest(M.Stop(plan.value.attackId, plan.value.roundId, emergency), links);
      ClearSourceMappings();
      running, ready, planPending := false, false, false;
    }

    /** Runs the handler of an event and keeps the invariant, including the tracking of installed mappings. */
    method Handle(input: M.Input, links: M.Links)
      requires Valid() && M.ValidInput(input)
      modifies this
      ensures Valid()
      ensures State() == M.Step(old(State()), input, links).after
      ensures outbox == old(outbox) + M.Step(old(State()), input, links).sent
      ensures outstanding == M.Outstanding(old(outstanding), M.Step(old(State()), input, links).sent)
    {
      ghost var before := State();
      M.StepKeepsValid(State(), input, links);
      M.StepTracksInstalls(State(), input, links, outstanding);
      Dispatch(input, links);
      outstanding := M.Outstanding(outstanding, M.Step(before, input, links).sent);
    }

    method Dispatch(input: M.Input, links: M.Links)
      requires Valid()
      modifies this
      ensures Performs(M.Step(old(State()), input, links))
    {
      hide M.Prepare, M.StartPrepared, M.StopPrepared, M.HandlePlan, M.HandleReady, M.HandleStatus, M.HandleAck,
           M.HandleNodes;
      match input
      case PrepareContext(usable, chosen) => var _ := PrepareContext(usable, chosen, links);
      case StartRound(now, start) => var _ := StartPrepared(now, start, links);
      case StopRound(emergency) => var _ := StopPrepared(emergency, links);
      case PlanReceived(submitted, order) => ProcessPlan(submitted, order, links);
      case ReadyReceived(attackId, roundId) => ProcessReady(attackId, roundId);
      case StatusReceived(attackId, state) => ProcessStatus(attackId, state);
      case AckReceived(receiver, request, roundId, accepted) =>
        ProcessAcknowledgement(receiver, request, roundId, accepted, links);
      case NodesChanged(testConnected, connected) => HandleNodesChanged(testConnected, connected, links);
      case RoundStateChanged(roundRunning) =>
        if !roundRunning && (running || ready) { var _ := StopPrepared(false, links); }
      case ConfigurationChanged(roundId) =>
        if context.Some? && context.value.roundId != roundId { ClearPreparedState(true); }
    }
  }

  lemma NextClear(all: set<M.Name>, left: set<M.Name>, r: M.Name)
    requires r in left && left <= all
    ensures M.Clears(all - (left - {r})) == M.Clears(all - left) + {M.Clear(r)}
  {
    assert all - (left - {r}) == (all - left) + {r};
  }

  /** The manager after the first i Receivers were sent their Install. */
  function Midway(start: M.Manager, order: seq<M.Name>, i: nat): M.Manager
    requires i <= |order|
  {
    start.(receivers := M.Members(order), pending := M.Requests(order, i, start.nextRequest),
      nextRequest := start.nextRequest + i)
  }

  /** Registering a request for one Receiver: kept when it was sent, withdrawn when it was not. */
  function Registered(m: M.Manager, receiver: M.Name, sent: bool): M.Manager {
    m.(nextRequest := m.nextRequest + 1, pending := if sent then m.pending[m.nextRequest := receiver] else m.pending)
  }

  lemma NothingInstalled(start: M.Manager, order: seq<M.Name>)
    requires start.pending == map[]
    ensures Midway(start, order, 0) == start.(receivers := M.Members(order))
    ensures M.Installs(order, 0, start.nextRequest) == {}
  {
  }

  lemma NextInstall(start: M.Manager, order: seq<M.Name>, i: nat)
    requires i < |order|
    ensures var now := Midway(start, order, i);
            && now.nextRequest == start.nextRequest + i && now.nextRequest !in now.pending
            && Midway(start, order, i + 1) == Registered(now, order[i], true)
    ensures M.Installs(order, i + 1, start.nextRequest) ==
            M.Installs(order, i, start.nextRequest) + {M.Install(start.nextRequest + i, order[i])}
  {
  }

  lemma InstallEnds(start: M.Manager, order: seq<M.Name>, links: M.Links)
    requires start.context.Some? && start.plan.Some? && start.pending == map[] && order != []
    ensures var n := M.ReachableFrom(order, links.nodes);
            var sent := M.Installs(order, n, start.nextRequest);
            M.InstallMappings(start, order, links) ==
              if n == |order| then M.InstallOutcome(true, Midway(start, order, n), sent)
              else
                var cleared := M.ClearMappings(Registered(Midway(start, order, n), order[n], false));
                M.InstallOutcome(false, cleared.after, sent + cleared.sent)
  {
    hide M.Requests, M.Installs, M.Clears, M.ReachableFrom;
    assert map[] + M.Requests(order, |order|, start.nextRequest) == M.Requests(order, |order|, start.nextRequest);
  }

  lemma ReachedSoFar(order: seq<M.Name>, nodes: set<M.Name>, i: nat)
    requires i < |order| && i <= M.ReachableFrom(order, nodes) && order[i] in nodes
    ensures i + 1 <= M.ReachableFrom(order, nodes)
  {
  }
}
