/** The manager's handshake seen from outside: for each kind of message exactly when a step sends it, and for each
    field exactly what changes it, whatever event arrives. */
module ManagerAnswers {
  import opened Bytes
  import opened ManagerExperiment
  import A = Admission

  // ----- What an event means to the manager -----

  /** A plan of the prepared round arrives while none is held. */
  predicate Arrives(m: Manager, input: Input) {
    input.PlanReceived? && m.contextSent && m.plan == None && m.context.Some? && Matches(input.plan, m.context.value)
  }

  /** An answer to an open request of the prepared round, from the Receiver that was asked. */
  predicate Answers(m: Manager, input: Input) {
    && input.AckReceived? && input.request in m.pending && m.pending[input.request] == input.receiver
    && m.context.Some? && input.roundId == m.context.value.roundId
  }

  /** The positive answer that no open request remains after. */
  predicate LastAnswer(m: Manager, input: Input) {
    Answers(m, input) && input.accepted && forall q :: q in m.pending ==> q == input.request
  }

  /** The picked Receivers can be asked: there is one, and all are reachable. */
  predicate CanInstall(order: seq<Name>, links: Links) {
    order != [] && forall r :: r in order ==> r in links.nodes
  }

  /** A Receiver in use is gone. */
  predicate LosesReceiver(m: Manager, input: Input) {
    input.NodesChanged? && m.contextSent && input.testConnected && exists r :: r in m.receivers && r !in input.connected
  }

  /** Everything prepared is forgotten. */
  predicate Resets(m: Manager, input: Input) {
    match input
    case PrepareContext(usable, _) => usable
    case NodesChanged(testConnected, _) => m.contextSent && !testConnected
    case ConfigurationChanged(roundId) => m.context.Some? && roundId != m.context.value.roundId
    case StopRound(_) => m.plan == None && m.contextSent
    case RoundStateChanged(roundRunning) =>
      !roundRunning && (m.running || m.ready) && m.plan == None && m.contextSent
    case _ => false
  }

  /** A plan is turned down: it is not of the prepared round or cannot be installed or accepted, one of its Receivers
      refused or is gone before it ran, or its acceptance could not be sent. */
  predicate Refuses(m: Manager, input: Input, links: Links) {
    match input
    case PlanReceived(plan, order) =>
      m.contextSent && m.plan == None &&
      (!Arrives(m, input) || if plan.kind == Dos then !links.testEndpoint else !CanInstall(order, links))
    case AckReceived(_, _, _, accepted) =>
      Answers(m, input) && (!accepted || (LastAnswer(m, input) && !links.testEndpoint))
    case NodesChanged(_, _) => LosesReceiver(m, input) && !m.running
    case _ => false
  }

  predicate HoldsPlan(m: Manager, attackId: nat, roundId: Name) {
    m.plan.Some? && m.plan.value.attackId == attackId && m.plan.value.roundId == roundId
  }

  lemma OnlyOpen(pending: map<nat, Name>, request: nat)
    requires request in pending
    ensures pending - {request} == map[] <==> forall q :: q in pending ==> q == request
  {
    if pending - {request} == map[] { A.OnlyKey(pending, request); }
  }

  lemma {:induction false} ReachableIff(order: seq<Name>, nodes: set<Name>)
    ensures ReachableFrom(order, nodes) == |order| <==> forall r :: r in order ==> r in nodes
  {
    var n := ReachableFrom(order, nodes);
    hide ReachableFrom;
    if n < |order| { assert order[n] in order; }
  }

  lemma InstallIff(m: Manager, order: seq<Name>, links: Links)
    requires m.context.Some? && m.plan.Some?
    ensures InstallMappings(m, order, links).ok <==> CanInstall(order, links)
    ensures forall o :: o in InstallMappings(m, order, links).sent ==> !o.ToTest?
  {
    A.InstallSendsNoDecision(m, order, links);
    ReachableIff(order, links.nodes);
    hide ReachableFrom, Installs, Requests, Clears, Members;
  }

  // ----- Messages to the test endpoint -----

  /** What a step tells the test endpoint, whatever arrives: nothing over a dead link, and otherwise exactly one of the
      messages below or none. */
  ghost predicate Tells(m: Manager, input: Input, links: Links, message: ToEndpoint) {
    links.testEndpoint &&
    match message
    case RoundContext(context) => input == PrepareContext(true, context)
    case RoundStart(attackId, roundId, at) =>
      input.StartRound? && input.start == at && at > input.now + 100 && m.ready && HoldsPlan(m, attackId, roundId)
    case PlanDecision(attackId, roundId, true) =>
      || (Arrives(m, input) && input.plan.kind == Dos
          && input.plan.attackId == attackId && input.plan.roundId == roundId)
      || (LastAnswer(m, input) && HoldsPlan(m, attackId, roundId))
    case PlanDecision(attackId, roundId, false) =>
      if input.PlanReceived? && m.contextSent
      then input.plan.attackId == attackId && input.plan.roundId == roundId
             && (m.plan.Some? || Refuses(m, input, links))
      else Refuses(m, input, links) && HoldsPlan(m, attackId, roundId)
    case Stop(attackId, roundId, emergency) =>
      HoldsPlan(m, attackId, roundId) &&
      match input
      case StopRound(byUser) => emergency == byUser
      case RoundStateChanged(roundRunning) => !emergency && !roundRunning && (m.running || m.ready)
      case NodesChanged(_, _) => emergency && LosesReceiver(m, input) && m.running
      case _ => false
  }

  lemma PlanTells(m: Manager, input: Input, links: Links, message: ToEndpoint)
    requires m.Valid() && input.PlanReceived?
    ensures ToTest(message) in HandlePlan(m, input.plan, input.order, links).sent <==> Tells(m, input, links, message)
  {
    if Arrives(m, input) { InstallIff(m.(plan := Some(input.plan), planPending := true), input.order, links); }
    NoOpenRequest(m);
    hide InstallMappings, CanInstall, Clears, Manager.Valid, LosesReceiver, Answers, LastAnswer;
  }

  lemma NoOpenRequest(m: Manager)
    requires m.Valid()
    ensures m.plan == None ==> m.receivers == {} && m.pending == map[]
  {
  }

  lemma AckTells(m: Manager, input: Input, links: Links, message: ToEndpoint)
    requires m.Valid() && input.AckReceived?
    ensures ToTest(message) in Step(m, input, links).sent <==> Tells(m, input, links, message)
  {
    if Answers(m, input) { OnlyOpen(m.pending, input.request); }
    hide Clears, HandlePlan;
  }

  /** In a valid state a step sends a message to the test endpoint if and only if the event calls for it. In particular
      a stop with a held plan is always sent while the link is up, with the identity of the plan and the urgency of the
      stop, and so is the emergency stop when a picked Receiver is gone while the attack runs. */
  lemma SendsIff(m: Manager, input: Input, links: Links, message: ToEndpoint)
    requires m.Valid()
    ensures ToTest(message) in Step(m, input, links).sent <==> Tells(m, input, links, message)
  {
    if input.PlanReceived? {
      PlanTells(m, input, links, message);
    } else if input.AckReceived? {
      AckTells(m, input, links, message);
    } else {
      hide Clears, HandlePlan, HandleAck, Manager.Valid;
    }
    hide Tells, HandlePlan, HandleAck, Clears, Manager.Valid;
  }

  /** And never more than one message to the test endpoint in one step. */
  lemma OneMessage(m: Manager, input: Input, links: Links, x: ToEndpoint, y: ToEndpoint)
    requires m.Valid() && ToTest(x) in Step(m, input, links).sent && ToTest(y) in Step(m, input, links).sent
    ensures x == y
  {
    SendsIff(m, input, links, x);
    SendsIff(m, input, links, y);
    hide Step, CanInstall, Manager.Valid;
  }

  /** What stopping a held plan comes to, in any state: the plan and its context stay, all flags go down, and the test
      endpoint is sent exactly this stop, unless the link is down. */
  ghost predicate StopsPlan(m: Manager, o: Outcome, emergency: bool, links: Links)
    requires m.plan.Some?
  {
    && (forall x :: x in o.sent && x.ToTest? <==>
          links.testEndpoint && x == ToTest(Stop(m.plan.value.attackId, m.plan.value.roundId, emergency)))
    && !o.after.running && !o.after.ready && !o.after.planPending && !o.after.mappingsInstalled
    && o.after.pending == map[] && o.after.plan == m.plan && o.after.context == m.context
  }

  /** A stop by the user with a held plan. */
  lemma StopReachesEndpoint(m: Manager, emergency: bool, links: Links)
    requires m.plan.Some?
    ensures StopsPlan(m, Step(m, StopRound(emergency), links), emergency, links)
  {
  }

  /** The emergency stop: a picked Receiver is gone while the attack runs. */
  lemma LostReceiverStops(m: Manager, input: Input, links: Links)
    requires m.plan.Some? && m.running && LosesReceiver(m, input)
    ensures StopsPlan(m, Step(m, input, links), true, links)
  {
  }

  // ----- Messages to the Receivers -----

  lemma {:induction false} InstallsIff(order: seq<Name>, n: nat, base: nat, request: nat, receiver: Name)
    requires n <= |order|
    ensures Install(request, receiver) in Installs(order, n, base) <==>
            base <= request < base + n && order[request - base] == receiver
  {
    if n > 0 { InstallsIff(order, n - 1, base, request, receiver); }
  }

  lemma {:induction false} ReachedIff(order: seq<Name>, nodes: set<Name>, i: nat)
    requires i < |order|
    ensures i < ReachableFrom(order, nodes) <==> forall k :: 0 <= k <= i ==> order[k] in nodes
  {
    var n := ReachableFrom(order, nodes);
    hide ReachableFrom;
    if n <= i { assert order[n] !in nodes; }
  }

  /** The picked Receivers are asked one after another, each with a request of its own, up to the first that cannot be
      reached. */
  lemma InstallSentIff(m: Manager, input: Input, links: Links, request: nat, receiver: Name)
    requires m.Valid()
    ensures Install(request, receiver) in Step(m, input, links).sent <==>
            && Arrives(m, input) && input.plan.kind != Dos && 0 <= request - m.nextRequest < |input.order|
            && input.order[request - m.nextRequest] == receiver
            && forall k :: 0 <= k <= request - m.nextRequest ==> input.order[k] in links.nodes
  {
    if Arrives(m, input) {
      var held := m.(plan := Some(input.plan), planPending := true);
      var i := request - m.nextRequest;
      InstallsIff(input.order, ReachableFrom(input.order, links.nodes), m.nextRequest, request, receiver);
      if 0 <= i < |input.order| { ReachedIff(input.order, links.nodes, i); }
      InstallMessages(held, input.order, links, request, receiver);
      hide ReachableFrom, Installs, InstallMappings, Manager.Valid;
    } else {
      NoOtherInstall(m, input, links, request, receiver);
      hide Step;
    }
  }

  lemma InstallMessages(m: Manager, order: seq<Name>, links: Links, request: nat, receiver: Name)
    requires m.context.Some? && m.plan.Some?
    ensures Install(request, receiver) in InstallMappings(m, order, links).sent <==>
            Install(request, receiver) in Installs(order, ReachableFrom(order, links.nodes), m.nextRequest)
  {
    if order == [] { InstallsIff(order, 0, m.nextRequest, request, receiver); }
    hide Requests, Members, Installs, ReachableFrom;
  }

  lemma NoOtherInstall(m: Manager, input: Input, links: Links, request: nat, receiver: Name)
    requires !Arrives(m, input)
    ensures Install(request, receiver) !in Step(m, input, links).sent
  {
    hide Manager.Valid;
  }

  /** The mappings of the held plan end with the plan, or with a stop that keeps it. */
  predicate Halts(m: Manager, input: Input, links: Links) {
    A.StopsHeld(m, input) || Resets(m, input) || Refuses(m, input, links)
  }

  /** A plan whose mappings are about to be installed cannot be: what was already sent is cleared again. */
  predicate RollsBack(m: Manager, input: Input, links: Links) {
    Arrives(m, input) && input.plan.kind != Dos && input.order != [] && !CanInstall(input.order, links)
  }

  lemma PlanClears(m: Manager, input: Input, links: Links, receiver: Name)
    requires m.Valid() && input.PlanReceived?
    ensures Clear(receiver) in HandlePlan(m, input.plan, input.order, links).sent <==>
            RollsBack(m, input, links) && receiver in input.order
  {
    if Arrives(m, input) {
      var held := m.(plan := Some(input.plan), planPending := true);
      InstallClears(held, input.order, links, receiver);
      InstallKeepsHeld(held, input.order, links);
    }
    hide InstallMappings, CanInstall;
  }

  lemma InstallClears(m: Manager, order: seq<Name>, links: Links, receiver: Name)
    requires m.context.Some? && m.plan.Some?
    ensures Clear(receiver) in InstallMappings(m, order, links).sent <==>
            order != [] && !CanInstall(order, links) && receiver in order
  {
    ReachableIff(order, links.nodes);
    InstallsAreRequests(order, ReachableFrom(order, links.nodes), m.nextRequest);
    hide ReachableFrom, Installs, Requests;
  }

  lemma InstallKeepsHeld(m: Manager, order: seq<Name>, links: Links)
    requires m.context.Some? && m.plan.Some?
    ensures var i := InstallMappings(m, order, links); i.after.context == m.context && i.after.plan == m.plan
    ensures var i := InstallMappings(m, order, links); !i.ok ==> i.after.receivers <= m.receivers
  {
    hide ReachableFrom, Installs, Requests, Members, Clears;
  }

  /** A step attempts to clear the mapping of a Receiver if and only if it ends the mappings of the held plan and the
      Receiver is one of them, or takes back an installation that did not reach every picked Receiver. */
  lemma ClearSentIff(m: Manager, input: Input, links: Links, receiver: Name)
    requires m.Valid()
    ensures Clear(receiver) in Step(m, input, links).sent <==>
            (Halts(m, input, links) && receiver in m.receivers)
            || (RollsBack(m, input, links) && receiver in input.order)
  {
    if input.PlanReceived? {
      PlanClears(m, input, links, receiver);
      hide HandlePlan, RollsBack, CanInstall;
    } else if input.AckReceived? {
      AckClears(m, input, links, receiver);
      hide HandleAck, Halts;
    } else {
      hide HandlePlan, HandleAck;
    }
    hide HandlePlan, HandleAck;
  }

  lemma AckClears(m: Manager, input: Input, links: Links, receiver: Name)
    requires m.Valid() && input.AckReceived?
    ensures Clear(receiver) in Step(m, input, links).sent <==> Halts(m, input, links) && receiver in m.receivers
  {
    if Answers(m, input) { OnlyOpen(m.pending, input.request); }
    hide HandlePlan;
  }

  // ----- The fields -----

  ghost predicate Holds(m: Manager, input: Input, links: Links, after: Manager) {
    && after.plan == (if Resets(m, input) || Refuses(m, input, links) then None
                      else if Arrives(m, input) then Some(input.plan) else m.plan)
    && after.context == (if input.PrepareContext? && input.usable
                         then if links.testEndpoint then Some(input.context) else None
                         else if Resets(m, input) then None else m.context)
    && (after.contextSent <==> if input.PrepareContext? && input.usable then links.testEndpoint
                               else m.contextSent && !Resets(m, input))
  }

  lemma PlanHolds(m: Manager, input: Input, links: Links)
    requires m.Valid() && input.PlanReceived?
    ensures Holds(m, input, links, HandlePlan(m, input.plan, input.order, links).after)
  {
    if Arrives(m, input) {
      var held := m.(plan := Some(input.plan), planPending := true);
      InstallKeepsHeld(held, input.order, links);
      InstallIff(held, input.order, links);
      InstallKeepsFlags(held, input.order, links);
    }
    hide InstallMappings, CanInstall, Clears, Manager.Valid;
  }

  lemma AckHolds(m: Manager, input: Input, links: Links)
    requires m.Valid() && input.AckReceived?
    ensures Holds(m, input, links, Step(m, input, links).after)
  {
    if Answers(m, input) { OnlyOpen(m.pending, input.request); }
    hide Clears, HandlePlan, Manager.Valid;
  }

  /** What a step makes of the prepared context and the held plan, whatever arrives. */
  lemma HoldsIff(m: Manager, input: Input, links: Links)
    requires m.Valid()
    ensures Holds(m, input, links, Step(m, input, links).after)
  {
    if input.PlanReceived? {
      PlanHolds(m, input, links);
      hide Holds;
    } else if input.AckReceived? {
      AckHolds(m, input, links);
      hide Step;
    }
    hide HandlePlan, HandleAck, Clears, Manager.Valid;
  }

  lemma InstallKeepsFlags(m: Manager, order: seq<Name>, links: Links)
    ensures var after := InstallMappings(m, order, links).after;
            after.contextSent == m.contextSent && after.ready == m.ready && after.running == m.running
            && after.planPending == m.planPending
  {
    hide ReachableFrom, Installs, Requests, Members, Clears;
  }

  /** The report that the held plan is prepared at the test endpoint. */
  predicate Reported(m: Manager, input: Input) {
    input.ReadyReceived? && HoldsPlan(m, input.attackId, input.roundId)
  }

  /** A status of the held plan. */
  predicate Status(m: Manager, input: Input) {
    input.StatusReceived? && m.plan.Some? && m.plan.value.attackId == input.attackId
  }

  predicate Starts(m: Manager, input: Input, links: Links) {
    input.StartRound? && m.ready && m.plan.Some? && input.start > input.now + 100 && links.testEndpoint
  }

  ghost predicate Flags(m: Manager, input: Input, links: Links, after: Manager) {
    && (after.ready <==> Reported(m, input) || (m.ready && !Halts(m, input, links)))
    && (after.planPending <==>
          !Reported(m, input) && !Halts(m, input, links) && (Arrives(m, input) || m.planPending))
    && (after.running <==>
          if Status(m, input) then input.state == Scheduled || input.state == Running
          else Starts(m, input, links) || (m.running && !Halts(m, input, links)))
  }

  lemma PlanFlags(m: Manager, input: Input, links: Links)
    requires m.Valid() && input.PlanReceived?
    ensures Flags(m, input, links, HandlePlan(m, input.plan, input.order, links).after)
  {
    if Arrives(m, input) {
      var held := m.(plan := Some(input.plan), planPending := true);
      InstallIff(held, input.order, links);
      InstallKeepsFlags(held, input.order, links);
    }
    hide InstallMappings, CanInstall, Clears, Manager.Valid;
  }

  lemma AckFlags(m: Manager, input: Input, links: Links)
    requires m.Valid() && input.AckReceived?
    ensures Flags(m, input, links, Step(m, input, links).after)
  {
    if Answers(m, input) { OnlyOpen(m.pending, input.request); }
    hide Clears, HandlePlan, Manager.Valid;
  }

  lemma LostIff(receivers: set<Name>, connected: set<Name>)
    ensures receivers <= connected <==> !exists r :: r in receivers && r !in connected
  {
  }

  lemma NodesFlags(m: Manager, input: Input, links: Links)
    requires m.Valid() && input.NodesChanged?
    ensures Flags(m, input, links, Step(m, input, links).after)
  {
    assert m.plan == None ==> m.receivers == {};
    LostIff(m.receivers, input.connected);
    hide Manager.Valid;
    hide HandlePlan, HandleAck, HandleStatus, HandleReady, StopPrepared, StartPrepared, Prepare, Clears;
  }

  lemma StopFlags(m: Manager, input: Input, links: Links)
    requires input.StopRound? || input.RoundStateChanged?
    ensures Flags(m, input, links, Step(m, input, links).after)
  {
    hide HandlePlan, HandleAck, HandleNodes, HandleStatus, HandleReady, StartPrepared, Prepare, Clears;
  }

  lemma ReportFlags(m: Manager, input: Input, links: Links)
    requires input.StatusReceived? || input.ReadyReceived?
    ensures Flags(m, input, links, Step(m, input, links).after)
  {
    hide HandlePlan, HandleAck, HandleNodes, StopPrepared, HandleRoundState, StartPrepared, Prepare, ClearPrepared,
         Reject, Clears, LosesReceiver, Answers, CanInstall;
  }

  lemma OtherFlags(m: Manager, input: Input, links: Links)
    requires input.PrepareContext? || input.StartRound? || input.ConfigurationChanged?
    ensures Flags(m, input, links, Step(m, input, links).after)
  {
    hide HandlePlan, HandleAck, HandleNodes, StopPrepared, HandleRoundState, HandleStatus, HandleReady, Reject, Clears,
         LosesReceiver, Answers, CanInstall;
  }

  /** What raises and what lowers the three flags, whatever arrives. */
  lemma FlagsIff(m: Manager, input: Input, links: Links)
    requires m.Valid()
    ensures Flags(m, input, links, Step(m, input, links).after)
  {
    hide Flags, HandlePlan;
    if input.PlanReceived? {
      PlanFlags(m, input, links);
    } else if input.AckReceived? {
      AckFlags(m, input, links);
      hide Step;
    } else if input.NodesChanged? {
      NodesFlags(m, input, links);
      hide Step;
    } else if input.StopRound? || input.RoundStateChanged? {
      StopFlags(m, input, links);
      hide Step;
    } else if input.StatusReceived? || input.ReadyReceived? {
      ReportFlags(m, input, links);
      hide Step;
    } else {
      OtherFlags(m, input, links);
      hide Step;
    }
  }

  /** The Receivers in use, the open requests and whether all mappings are in place. */
  ghost predicate Mappings(m: Manager, input: Input, links: Links, after: Manager) {
    var installing := Arrives(m, input) && input.plan.kind != Dos;
    if Halts(m, input, links) then
      after.receivers == {} && after.pending == map[] && !after.mappingsInstalled
    else
      && after.receivers == (if installing then Members(input.order) else m.receivers)
      && (after.mappingsInstalled <==> LastAnswer(m, input) || m.mappingsInstalled)
      && (forall q: nat :: q in after.pending <==>
            if installing then m.nextRequest <= q < m.nextRequest + |input.order|
            else q in m.pending && !(Answers(m, input) && q == input.request))
      && (forall q: nat :: q in after.pending ==>
            after.pending[q] == if installing then input.order[q - m.nextRequest] else m.pending[q])
  }

  lemma {:induction false} RequestAt(order: seq<Name>, n: nat, base: nat)
    requires n <= |order|
    ensures forall q: nat :: q in Requests(order, n, base) ==> Requests(order, n, base)[q] == order[q - base]
  {
    if n > 0 { RequestAt(order, n - 1, base); }
  }

  lemma InstallMappingsAre(m: Manager, order: seq<Name>, links: Links)
    requires m.context.Some? && m.plan.Some? && m.pending == map[] && m.receivers == {}
    ensures var i := InstallMappings(m, order, links);
            if CanInstall(order, links)
            then i.after == m.(receivers := Members(order), pending := Requests(order, |order|, m.nextRequest),
                               nextRequest := m.nextRequest + |order|)
            else i.after.receivers == {} && i.after.pending == map[]
  {
    ReachableIff(order, links.nodes);
    assert map[] + Requests(order, |order|, m.nextRequest) == Requests(order, |order|, m.nextRequest);
    hide ReachableFrom, Installs, Requests, Members, Clears;
  }

  lemma PlanMappings(m: Manager, input: Input, links: Links)
    requires m.Valid() && input.PlanReceived? && (m.plan == None ==> !m.mappingsInstalled)
    ensures Mappings(m, input, links, HandlePlan(m, input.plan, input.order, links).after)
  {
    hide InstallMappings, CanInstall, Clears, Requests, Members;
    if Arrives(m, input) {
      var held := m.(plan := Some(input.plan), planPending := true);
      InstallIff(held, input.order, links);
      InstallMappingsAre(held, input.order, links);
      RequestAt(input.order, |input.order|, m.nextRequest);
      hide Matches;
    }
  }

  lemma AckMappings(m: Manager, input: Input, links: Links)
    requires m.Valid() && input.AckReceived?
    ensures Mappings(m, input, links, Step(m, input, links).after)
  {
    if Answers(m, input) { OnlyOpen(m.pending, input.request); }
    hide Clears, HandlePlan;
  }

  lemma NodesMappings(m: Manager, input: Input, links: Links)
    requires m.Valid() && input.NodesChanged?
    ensures Mappings(m, input, links, Step(m, input, links).after)
  {
    LostIff(m.receivers, input.connected);
    hide HandlePlan, HandleAck, Clears, Members, Matches;
  }

  lemma StopMappings(m: Manager, input: Input, links: Links)
    requires m.Valid() && (input.StopRound? || input.RoundStateChanged?)
    ensures Mappings(m, input, links, Step(m, input, links).after)
  {
    hide HandlePlan, HandleAck, HandleNodes, HandleStatus, Prepare, StartPrepared, HandleReady, HandleConfiguration,
         Clears, Members, Matches, RollsBack;
  }

  lemma ReportMappings(m: Manager, input: Input, links: Links)
    requires m.Valid() && (input.StatusReceived? || input.ReadyReceived?)
    ensures Mappings(m, input, links, Step(m, input, links).after)
  {
    hide HandlePlan, HandleAck, HandleNodes, StopPrepared, HandleRoundState, StartPrepared, Prepare, ClearPrepared,
         Reject, Clears, LosesReceiver, CanInstall, Members, Matches;
  }

  lemma OtherMappings(m: Manager, input: Input, links: Links)
    requires input.PrepareContext? || input.StartRound? || input.ConfigurationChanged?
    ensures Mappings(m, input, links, Step(m, input, links).after)
  {
    hide HandlePlan, HandleAck, HandleNodes, StopPrepared, HandleRoundState, HandleStatus, HandleReady, Reject, Clears,
         LosesReceiver, CanInstall, Members, Matches;
  }

  /** What a step makes of the mappings, whatever arrives; without a plan none is marked as installed (an invariant of
      every run). */
  lemma MappingsIff(m: Manager, input: Input, links: Links)
    requires m.Valid() && (m.plan == None ==> !m.mappingsInstalled)
    ensures Mappings(m, input, links, Step(m, input, links).after)
  {
    hide Mappings, HandlePlan;
    if input.PlanReceived? {
      PlanMappings(m, input, links);
    } else if input.AckReceived? {
      AckMappings(m, input, links);
      hide Step;
    } else if input.NodesChanged? {
      NodesMappings(m, input, links);
      hide Step;
    } else if input.StopRound? || input.RoundStateChanged? {
      StopMappings(m, input, links);
      hide Step;
    } else if input.StatusReceived? || input.ReadyReceived? {
      ReportMappings(m, input, links);
      hide Step;
    } else {
      OtherMappings(m, input, links);
      hide Step;
    }
  }

  lemma NumbersAdvance(m: Manager, order: seq<Name>, links: Links)
    requires m.context.Some? && m.plan.Some?
    ensures InstallMappings(m, order, links).after.nextRequest >=
            m.nextRequest + if order == [] then 0 else ReachableFrom(order, links.nodes)
  {
    hide ReachableFrom, Installs, Requests, Members, Clears;
  }

  lemma NumbersStay(m: Manager, input: Input, links: Links)
    requires !Arrives(m, input)
    ensures Step(m, input, links).after.nextRequest == m.nextRequest
  {
    hide Manager.Valid, Clears, Installs, Requests;
  }

  /** A request is never sent with a number that was used before. */
  lemma RequestsAreNew(m: Manager, input: Input, links: Links, request: nat, receiver: Name)
    requires m.Valid()
    ensures m.nextRequest <= Step(m, input, links).after.nextRequest
    ensures Install(request, receiver) in Step(m, input, links).sent ==>
              m.nextRequest <= request < Step(m, input, links).after.nextRequest
  {
    if Arrives(m, input) {
      var held := m.(plan := Some(input.plan), planPending := true);
      NumbersAdvance(held, input.order, links);
      InstallMessages(held, input.order, links, request, receiver);
      InstallsIff(input.order, ReachableFrom(input.order, links.nodes), m.nextRequest, request, receiver);
      if input.order == [] { InstallSentIff(m, input, links, request, receiver); }
      hide InstallMappings, Installs, Clears, ReachableFrom, Manager.Valid;
    } else {
      NumbersStay(m, input, links);
      NoOtherInstall(m, input, links, request, receiver);
      hide Step;
    }
  }
}
