/** The manager's side of the robustness-test handshake: one prepared context, at most one plan, the Receivers that
    were asked to install a source mapping, and the requests they have not answered yet. */
module ManagerExperiment {
  import opened Bytes

  /** Endpoints, rounds and senders are only compared for equality. */
  datatype Name = Name(id: nat)

  datatype PlanKind = Tamper | Replay | Dos

  /** A submitted plan; `targets` are the packet indexes of a tamper or replay plan. */
  datatype Plan = Plan(attackId: nat, roundId: Name, senderId: Name, chainId: nat, kind: PlanKind, targets: seq<nat>)

  datatype AttackContext = AttackContext(roundId: Name, senderId: Name, chainId: nat, improved: bool, packetCount: nat,
                                         groupSize: nat, threshold: nat)

  datatype ExecutionState =
    Idle | ContextReady | PlanPending | Ready | Scheduled | Running | Completed | Stopped | Failed

  /** Messages from the manager to the test endpoint. */
  datatype ToEndpoint =
    | RoundContext(context: AttackContext)
    | PlanDecision(attackId: nat, roundId: Name, accepted: bool)
    | RoundStart(attackId: nat, roundId: Name, at: nat)
    | Stop(attackId: nat, roundId: Name, emergency: bool)

  /** Messages from the test endpoint to the manager. */
  datatype FromEndpoint =
    | PlanSubmitted(plan: Plan)
    | ReadyReport(attackId: nat, roundId: Name)
    | StatusReport(attackId: nat, state: ExecutionState)

  /** Everything the manager puts on the network. A Clear is recorded when it is attempted. */
  datatype Output =
    | ToTest(message: ToEndpoint)
    | Install(request: nat, receiver: Name)
    | Clear(receiver: Name)

  /** Which sends succeed while one handler runs. */
  datatype Links = Links(testEndpoint: bool, nodes: set<Name>)

  datatype Manager = Manager(
    context: Option<AttackContext>,
    contextSent: bool,
    plan: Option<Plan>,
    planPending: bool,
    ready: bool,
    running: bool,
    mappingsInstalled: bool,
    receivers: set<Name>,
    pending: map<nat, Name>,
    nextRequest: nat)
  {
    /** What every handler keeps. */
    ghost predicate Valid() {
      && (plan.Some? ==> context.Some? && Matches(plan.value, context.value))
      && (plan == None ==> receivers == {} && pending == map[])
      && (receivers != {} ==> context.Some?)
      && (forall q :: q in pending ==> pending[q] in receivers && q < nextRequest)
      && (plan.Some? && plan.value.kind == Dos ==> receivers == {})
    }
  }

  const INITIAL := Manager(None, false, None, false, false, false, false, {}, map[], 0)

  predicate Matches(plan: Plan, context: AttackContext) {
    plan.roundId == context.roundId && plan.senderId == context.senderId && plan.chainId == context.chainId
  }

  /** A handler's new state and what it sent. */
  datatype Outcome = Outcome(after: Manager, sent: set<Output>)

  function ToTestIf(up: bool, message: ToEndpoint): set<Output> {
    if up then {ToTest(message)} else {}
  }

  // ----- Clearing -----

  function Clears(receivers: set<Name>): set<Output> {
    set r | r in receivers :: Clear(r)
  }

  function ClearMappings(m: Manager): Outcome {
    Outcome(
      m.(pending := map[], mappingsInstalled := false, receivers := if m.context.Some? then {} else m.receivers),
      if m.context.Some? then Clears(m.receivers) else {})
  }

  function Reject(m: Manager, links: Links): Outcome {
    var decision :=
      if m.plan.Some?
      then ToTestIf(links.testEndpoint, PlanDecision(m.plan.value.attackId, m.plan.value.roundId, false)) else {};
    var cleared := ClearMappings(m);
    Outcome(cleared.after.(plan := None, planPending := false, ready := false, running := false),
      decision + cleared.sent)
  }

  function ClearPrepared(m: Manager, clearMappings: bool): Outcome {
    Outcome(INITIAL.(nextRequest := m.nextRequest), if clearMappings then ClearMappings(m).sent else {})
  }

  // ----- Handlers -----

  function Prepare(m: Manager, usable: bool, context: AttackContext, links: Links): Outcome {
    if !usable then Outcome(m, {})
    else
      var cleared := ClearPrepared(m, true);
      if links.testEndpoint
      then Outcome(cleared.after.(context := Some(context), contextSent := true),
        cleared.sent + {ToTest(RoundContext(context))})
      else cleared
  }

  /** The requests of the first n Receivers in `order`, numbered from `base`. */
  function Requests(order: seq<Name>, n: nat, base: nat): (r: map<nat, Name>)
    requires n <= |order|
    ensures forall q :: q in r <==> base <= q < base + n
    ensures forall q :: q in r ==> r[q] in order
  {
    if n == 0 then map[] else Requests(order, n - 1, base)[base + n - 1 := order[n - 1]]
  }

  function Installs(order: seq<Name>, n: nat, base: nat): set<Output>
    requires n <= |order|
  {
    if n == 0 then {} else Installs(order, n - 1, base) + {Install(base + n - 1, order[n - 1])}
  }

  lemma {:induction false} InstallsAreRequests(order: seq<Name>, n: nat, base: nat)
    requires n <= |order|
    ensures forall o :: o in Installs(order, n, base) ==>
              o.Install? && o.request in Requests(order, n, base) && o.receiver == Requests(order, n, base)[o.request]
    ensures forall q :: q in Requests(order, n, base) ==>
              Install(q, Requests(order, n, base)[q]) in Installs(order, n, base)
  {
    if n > 0 { InstallsAreRequests(order, n - 1, base); }
  }

  /** How many of the Receivers in `order` can be reached before the first failure. */
  function ReachableFrom(order: seq<Name>, nodes: set<Name>): (n: nat)
    ensures n <= |order| && (n < |order| ==> order[n] !in nodes) && forall i :: 0 <= i < n ==> order[i] in nodes
  {
    if order == [] || order[0] !in nodes then 0
    else
      var n := ReachableFrom(order[1..], nodes);
      assert forall i :: 0 < i < n + 1 ==> order[i] == order[1..][i - 1];
      assert n < |order[1..]| ==> order[n + 1] == order[1..][n];
      1 + n
  }

  function Members(order: seq<Name>): set<Name> {
    set r | r in order
  }

  datatype InstallOutcome = InstallOutcome(ok: bool, after: Manager, sent: set<Output>)

  /** Installs a mapping on every Receiver in turn; the first failing send clears everything again. */
  function InstallMappings(m: Manager, order: seq<Name>, links: Links): InstallOutcome {
    if m.context == None || m.plan == None then InstallOutcome(false, m, {})
    else if order == [] then InstallOutcome(false, m, {})
    else
      var n := ReachableFrom(order, links.nodes);
      var chosen := m.(receivers := Members(order));
      if n == |order| then
        InstallOutcome(true, chosen.(pending := m.pending + Requests(order, n, m.nextRequest),
          nextRequest := m.nextRequest + n),
                       Installs(order, n, m.nextRequest))
      else
        var cleared := ClearMappings(chosen);
        InstallOutcome(false, cleared.after.(nextRequest := m.nextRequest + n + 1),
                       Installs(order, n, m.nextRequest) + cleared.sent)
  }

  function HandlePlan(m: Manager, plan: Plan, order: seq<Name>, links: Links): Outcome {
    if !m.contextSent then Outcome(m, {})
    else if m.plan.Some? then Outcome(m, ToTestIf(links.testEndpoint, PlanDecision(plan.attackId, plan.roundId, false)))
    else if m.context == None || !Matches(plan, m.context.value) then Reject(m.(plan := Some(plan)), links)
    else
      var held := m.(plan := Some(plan), planPending := true);
      if plan.kind == Dos then
        if links.testEndpoint then Outcome(held, {ToTest(PlanDecision(plan.attackId, plan.roundId, true))})
        else Reject(held, links)
      else
        var installed := InstallMappings(held, order, links);
        if installed.ok then Outcome(installed.after, installed.sent)
        else
          var rejected := Reject(installed.after, links);
          Outcome(rejected.after, installed.sent + rejected.sent)
  }

  function HandleReady(m: Manager, attackId: nat, roundId: Name): Manager {
    if m.plan.Some? && attackId == m.plan.value.attackId && roundId == m.plan.value.roundId
    then m.(planPending := false, ready := true) else m
  }

  function HandleStatus(m: Manager, attackId: nat, state: ExecutionState): Outcome {
    if m.plan == None || attackId != m.plan.value.attackId then Outcome(m, {})
    else
      var updated := m.(running := state == Scheduled || state == Running);
      if state == Completed || state == Stopped || state == Failed
      then ClearMappings(updated.(ready := false, planPending := false))
      else Outcome(updated, {})
  }

  function HandleAck(m: Manager, receiver: Name, request: nat, roundId: Name, accepted: bool, links: Links): Outcome {
    if request !in m.pending || m.pending[request] != receiver || m.context == None
      || roundId != m.context.value.roundId
    then Outcome(m, {})
    else
      var answered := m.(pending := m.pending - {request});
      if !accepted then Reject(answered, links)
      else if answered.pending != map[] then Outcome(answered, {})
      else
        var installed := answered.(mappingsInstalled := true);
        if installed.plan.Some? && links.testEndpoint
        then Outcome(installed, {ToTest(PlanDecision(installed.plan.value.attackId, installed.plan.value.roundId,
          true))})
        else Reject(installed, links)
  }

  function HandleNodes(m: Manager, testConnected: bool, connected: set<Name>, links: Links): Outcome {
    if !m.contextSent then Outcome(m, {})
    else if !testConnected then ClearPrepared(m, true)
    else if m.receivers <= connected then Outcome(m, {})
    else if m.running then
      var stop :=
        if m.plan.Some?
        then ToTestIf(links.testEndpoint, Stop(m.plan.value.attackId, m.plan.value.roundId, true)) else {};
      var cleared := ClearMappings(m);
      Outcome(cleared.after.(running := false, ready := false, planPending := false), stop + cleared.sent)
    else Reject(m, links)
  }

  function StartPrepared(m: Manager, now: nat, start: nat, links: Links): Outcome {
    if !m.ready || m.plan == None || start <= now + 100 || !links.testEndpoint then Outcome(m, {})
    else Outcome(m.(running := true), {ToTest(RoundStart(m.plan.value.attackId, m.plan.value.roundId, start))})
  }

  function StopPrepared(m: Manager, emergency: bool, links: Links): Outcome {
    if m.plan == None then if m.contextSent then ClearPrepared(m, true) else Outcome(m, {})
    else
      var cleared := ClearMappings(m);
      Outcome(cleared.after.(running := false, ready := false, planPending := false),
              ToTestIf(links.testEndpoint, Stop(m.plan.value.attackId, m.plan.value.roundId, emergency)) + cleared.sent)
  }

  function HandleRoundState(m: Manager, roundRunning: bool, links: Links): Outcome {
    if !roundRunning && (m.running || m.ready) then StopPrepared(m, false, links) else Outcome(m, {})
  }

  function HandleConfiguration(m: Manager, roundId: Name): Outcome {
    if m.context.Some? && m.context.value.roundId != roundId then ClearPrepared(m, true) else Outcome(m, {})
  }

  // ----- One step of the manager -----

  datatype Input =
    | PrepareContext(usable: bool, context: AttackContext)
    | StartRound(now: nat, start: nat)
    | StopRound(emergency: bool)
    | PlanReceived(plan: Plan, order: seq<Name>)
    | ReadyReceived(attackId: nat, roundId: Name)
    | StatusReceived(attackId: nat, state: ExecutionState)
    | AckReceived(receiver: Name, request: nat, roundId: Name, accepted: bool)
    | NodesChanged(testConnected: bool, connected: set<Name>)
    | RoundStateChanged(roundRunning: bool)
    | ConfigurationChanged(roundId: Name)

  /** The iteration order of a set lists every member once. */
  ghost predicate NoRepeats(order: seq<Name>) {
    forall i, j :: 0 <= i < j < |order| ==> order[i] != order[j]
  }

  ghost predicate ValidInput(input: Input) {
    input.PlanReceived? ==> NoRepeats(input.order)
  }

  function Step(m: Manager, input: Input, links: Links): Outcome {
    match input
    case PrepareContext(usable, context) => Prepare(m, usable, context, links)
    case StartRound(now, start) => StartPrepared(m, now, start, links)
    case StopRound(emergency) => StopPrepared(m, emergency, links)
    case PlanReceived(plan, order) => HandlePlan(m, plan, order, links)
    case ReadyReceived(attackId, roundId) => Outcome(HandleReady(m, attackId, roundId), {})
    case StatusReceived(attackId, state) => HandleStatus(m, attackId, state)
    case AckReceived(receiver, request, roundId, accepted) => HandleAck(m, receiver, request, roundId, accepted, links)
    case NodesChanged(testConnected, connected) => HandleNodes(m, testConnected, connected, links)
    case RoundStateChanged(roundRunning) => HandleRoundState(m, roundRunning, links)
    case ConfigurationChanged(roundId) => HandleConfiguration(m, roundId)
  }

  lemma InstallKeepsValid(m: Manager, order: seq<Name>, links: Links)
    requires m.context.Some? && m.plan.Some? && Matches(m.plan.value, m.context.value) && m.plan.value.kind != Dos
    requires m.receivers == {} && m.pending == map[]
    ensures var i := InstallMappings(m, order, links);
            i.after.Valid() && i.after.plan == m.plan && i.after.context == m.context
    ensures var i := InstallMappings(m, order, links); !i.ok ==> i.after.pending == map[] && i.after.receivers == {}
  {
    hide ReachableFrom, Installs, Clears, Requests, Matches;
    var i := InstallMappings(m, order, links);
    if i.ok {
      assert i.after.pending == Requests(order, |order|, m.nextRequest);
    }
  }

  /** Rejecting leaves a valid manager whatever plan was held. */
  lemma RejectIsValid(m: Manager, links: Links)
    requires m.receivers != {} ==> m.context.Some?
    ensures Reject(m, links).after.Valid()
  {
    hide Clears;
  }

  lemma PlanKeepsValid(m: Manager, plan: Plan, order: seq<Name>, links: Links)
    requires m.Valid()
    ensures HandlePlan(m, plan, order, links).after.Valid()
  {
    if m.contextSent && m.plan == None {
      RejectIsValid(m.(plan := Some(plan)), links);
      var held := m.(plan := Some(plan), planPending := true);
      RejectIsValid(held, links);
      if m.context.Some? && Matches(plan, m.context.value) && plan.kind != Dos {
        InstallKeepsValid(held, order, links);
        RejectIsValid(InstallMappings(held, order, links).after, links);
      }
      hide InstallMappings, Reject;
    }
  }

  lemma AckKeepsValid(m: Manager, receiver: Name, request: nat, roundId: Name, accepted: bool, links: Links)
    requires m.Valid()
    ensures HandleAck(m, receiver, request, roundId, accepted, links).after.Valid()
  {
    var answered := m.(pending := m.pending - {request});
    RejectIsValid(answered, links);
    RejectIsValid(answered.(mappingsInstalled := true), links);
    hide Reject;
  }

  lemma StepKeepsValid(m: Manager, input: Input, links: Links)
    requires m.Valid() && ValidInput(input)
    ensures Step(m, input, links).after.Valid()
  {
    if input.PlanReceived? {
      PlanKeepsValid(m, input.plan, input.order, links);
    } else if input.AckReceived? {
      AckKeepsValid(m, input.receiver, input.request, input.roundId, input.accepted, links);
    } else {
      RejectIsValid(m, links);
      hide Reject, Clears;
    }
    hide HandlePlan, HandleAck;
  }

  // ----- Mapping cleanup -----

  function Installed(sent: set<Output>): set<Name> {
    set o | o in sent && o.Install? :: o.receiver
  }

  function Cleared(sent: set<Output>): set<Name> {
    set o | o in sent && o.Clear? :: o.receiver
  }

  /** The Receivers that were sent an Install and no later Clear attempt. No handler sends an Install after a Clear. */
  function Outstanding(before: set<Name>, sent: set<Output>): set<Name> {
    before + Installed(sent) - Cleared(sent)
  }

  lemma ClearsAll(before: set<Name>, receivers: set<Name>, sent: set<Output>)
    requires before + Installed(sent) <= receivers && Clears(receivers) <= sent
    ensures Outstanding(before, sent) == {}
  {
    forall r | r in receivers ensures r in Cleared(sent) {
      assert Clear(r) in Clears(receivers);
    }
  }

  lemma InstalledOnly(order: seq<Name>, n: nat, base: nat)
    requires n <= |order|
    ensures Installed(Installs(order, n, base)) <= Members(order)
  {
    InstallsAreRequests(order, n, base);
  }

  lemma InstallOutstanding(m: Manager, order: seq<Name>, links: Links)
    requires m.context.Some? && m.receivers == {}
    ensures var i := InstallMappings(m, order, links); Outstanding({}, i.sent) <= i.after.receivers
  {
    hide ReachableFrom, Installs;
    var i := InstallMappings(m, order, links);
    if m.plan.Some? && order != [] {
      var n := ReachableFrom(order, links.nodes);
      InstalledOnly(order, n, m.nextRequest);
      var all := Members(order);
      if !i.ok {
        var installs := Installs(order, n, m.nextRequest);
        assert i.sent == installs + Clears(all);
        assert Installed(i.sent) == Installed(installs);
        ClearsAll({}, all, i.sent);
      }
    }
  }

  /** The handler sent no Install, and either left the Receivers alone or attempted a Clear for each. */
  ghost predicate ClearsOrKeeps(m: Manager, o: Outcome) {
    Installed(o.sent) == {} && (o.after.receivers == m.receivers || Clears(m.receivers) <= o.sent)
  }

  lemma AckClearsOrKeeps(m: Manager, receiver: Name, request: nat, roundId: Name, accepted: bool, links: Links)
    requires m.Valid()
    ensures ClearsOrKeeps(m, HandleAck(m, receiver, request, roundId, accepted, links))
  {
  }

  lemma NodesClearOrKeep(m: Manager, testConnected: bool, connected: set<Name>, links: Links)
    requires m.Valid()
    ensures ClearsOrKeeps(m, HandleNodes(m, testConnected, connected, links))
  {
  }

  lemma StepClearsOrKeeps(m: Manager, input: Input, links: Links)
    requires m.Valid() && (input.PlanReceived? ==> m.plan.Some? || !m.contextSent)
    ensures ClearsOrKeeps(m, Step(m, input, links))
  {
    if input.AckReceived? {
      AckClearsOrKeeps(m, input.receiver, input.request, input.roundId, input.accepted, links);
      hide HandleAck, ClearsOrKeeps;
    } else if input.NodesChanged? {
      NodesClearOrKeep(m, input.testConnected, input.connected, links);
      hide HandleNodes, ClearsOrKeeps;
    }
    hide HandleAck, HandleNodes;
  }

  lemma RejectClears(m: Manager, links: Links, outstanding: set<Name>)
    requires outstanding <= m.receivers && (m.receivers != {} ==> m.context.Some?)
    ensures Outstanding(outstanding, Reject(m, links).sent) == {} && Installed(Reject(m, links).sent) == {}
  {
    ClearsAll(outstanding, m.receivers, Reject(m, links).sent);
  }

  lemma PlanTracksInstalls(m: Manager, plan: Plan, order: seq<Name>, links: Links)
    requires m.Valid() && m.plan == None && m.contextSent
    ensures Outstanding({}, HandlePlan(m, plan, order, links).sent) <= HandlePlan(m, plan, order, links).after.receivers
  {
    var o := HandlePlan(m, plan, order, links);
    RejectClears(m.(plan := Some(plan)), links, {});
    var held := m.(plan := Some(plan), planPending := true);
    RejectClears(held, links, {});
    if m.context.Some? && Matches(plan, m.context.value) && plan.kind != Dos {
      hide InstallMappings, Reject, Clears;
      InstallOutstanding(held, order, links);
      InstallKeepsValid(held, order, links);
      var i := InstallMappings(held, order, links);
      RejectClears(i.after, links, {});
      if !i.ok { assert Outstanding({}, o.sent) <= Outstanding({}, i.sent); }
    }
  }

  /** A Receiver that was sent an Install stays in the manager's set until a Clear has been attempted for it. */
  lemma StepTracksInstalls(m: Manager, input: Input, links: Links, outstanding: set<Name>)
    requires m.Valid() && ValidInput(input) && outstanding <= m.receivers
    ensures Outstanding(outstanding, Step(m, input, links).sent) <= Step(m, input, links).after.receivers
  {
    var o := Step(m, input, links);
    if input.PlanReceived? && m.plan == None && m.contextSent {
      PlanTracksInstalls(m, input.plan, input.order, links);
    } else {
      StepClearsOrKeeps(m, input, links);
      hide Step, Clears, Manager.Valid;
      if o.after.receivers != m.receivers { ClearsAll(outstanding, m.receivers, o.sent); }
    }
  }
}
