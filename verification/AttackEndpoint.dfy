/** The test endpoint's side of the handshake: which plans it prepares and which messages move it towards execution. */
module AttackEndpoint {
  import opened Bytes
  import opened Arithmetic
  import M = ManagerExperiment

  datatype Endpoint = Endpoint(context: Option<M.AttackContext>, plan: Option<M.Plan>, state: M.ExecutionState,
      nextAttackId: nat)
  {
    ghost predicate Valid() {
      && (plan.Some? ==>
            context.Some? && plan.value.attackId < nextAttackId && plan.value.roundId == context.value.roundId)
      && (state in {M.PlanPending, M.Ready, M.Scheduled, M.Running} ==> plan.Some?)
      && (context == None ==> state == M.Idle)
    }

    /** On the way to execution: the plan was accepted by the manager. */
    predicate Admitted() {
      plan.Some? && (state == M.Ready || state == M.Scheduled || state == M.Running)
    }
  }

  const INITIAL := Endpoint(None, None, M.Idle, 1)

  // ----- Preparing a plan -----

  predicate IndexesValid(targets: seq<nat>, packetCount: nat) {
    forall i :: 0 <= i < |targets| ==> 0 < targets[i] <= packetCount
  }

  function GroupOf(index: nat, groupSize: nat): nat
    requires groupSize > 0
  {
    if index == 0 then 0 else Quo(index - 1, groupSize) + 1
  }

  /** How many targets fall into group g. */
  function TargetsIn(targets: seq<nat>, groupSize: nat, g: nat): nat
    requires groupSize > 0
  {
    if targets == [] then 0
    else TargetsIn(targets[..|targets| - 1], groupSize, g) +
         if GroupOf(targets[|targets| - 1], groupSize) == g then 1 else 0
  }

  /** Group g > 0 holds the indexes above (g-1)*groupSize up to g*groupSize. */
  lemma GroupRange(index: nat, groupSize: nat, g: nat)
    requires groupSize > 0 && g > 0
    ensures GroupOf(index, groupSize) == g <==> groupSize * (g - 1) < index <= groupSize * g
  {
    assert groupSize * g == groupSize * (g - 1) + groupSize;
    if index > 0 {
      Division(index - 1, groupSize);
      if groupSize * (g - 1) < index <= groupSize * g {
        DivisionUnique(index - 1, groupSize, g - 1, index - 1 - groupSize * (g - 1));
      }
    } else {
      MulMonotone(0, 0, groupSize, g - 1);
    }
  }

  /** The positions of the targets that lie in group g. */
  function PositionsIn(targets: seq<nat>, groupSize: nat, g: nat): set<nat>
    requires g > 0
  {
    set i: nat | i < |targets| && groupSize * (g - 1) < targets[i] <= groupSize * g
  }

  /** The count of a group is the number of targets within its range. */
  lemma {:induction false} TargetsCounted(targets: seq<nat>, groupSize: nat, g: nat)
    requires groupSize > 0 && g > 0
    ensures TargetsIn(targets, groupSize, g) == |PositionsIn(targets, groupSize, g)|
  {
    if targets != [] {
      var n := |targets| - 1;
      var before := PositionsIn(targets[..n], groupSize, g);
      TargetsCounted(targets[..n], groupSize, g);
      GroupRange(targets[n], groupSize, g);
      assert PositionsIn(targets, groupSize, g) ==
             before + if GroupOf(targets[n], groupSize) == g then {n} else {};
    }
  }

  ghost predicate ThresholdExceeded(targets: seq<nat>, groupSize: nat, threshold: nat)
    requires groupSize > 0
  {
    exists g: nat :: TargetsIn(targets, groupSize, g) > threshold
  }

  /** What the endpoint demands of a plan in its current state. */
  ghost predicate Preparable(e: Endpoint, plan: M.Plan, confirmed: bool)
    requires e.context.Some? && e.context.value.improved ==> e.context.value.groupSize > 0
  {
    && e.context.Some? && e.state != M.Running && e.state != M.Scheduled
    && plan.roundId == e.context.value.roundId
    && (plan.kind != M.Dos ==> plan.senderId == e.context.value.senderId && plan.chainId == e.context.value.chainId)
    && (plan.kind != M.Dos ==> IndexesValid(plan.targets, e.context.value.packetCount))
    && (plan.kind == M.Tamper && e.context.value.improved && !confirmed ==>
          !ThresholdExceeded(plan.targets, e.context.value.groupSize, e.context.value.threshold))
  }

  method CheckIndexes(targets: seq<nat>, packetCount: nat) returns (ok: bool)
    ensures ok <==> IndexesValid(targets, packetCount)
  {
    for i := 0 to |targets|
      invariant IndexesValid(targets[..i], packetCount)
    {
      if targets[i] == 0 || targets[i] > packetCount { return false; }
    }
    assert targets[..|targets|] == targets;
    ok := true;
  }

  /** Counts the targets of every group in a map, then looks for a group above the threshold. */
  method ExceedsThreshold(targets: seq<nat>, groupSize: nat, threshold: nat) returns (exceeded: bool)
    requires groupSize > 0
    ensures exceeded <==> ThresholdExceeded(targets, groupSize, threshold)
  {
    var counts: map<nat, nat> := map[];
    for i := 0 to |targets|
      invariant forall g: nat :: TargetsIn(targets[..i], groupSize, g) == if g in counts then counts[g] else 0
    {
      var g := GroupOf(targets[i], groupSize);
      assert targets[..i + 1][..i] == targets[..i];
      counts := counts[g := (if g in counts then counts[g] else 0) + 1];
    }
    assert targets[..|targets|] == targets;
    exceeded := exists g :: g in counts && counts[g] > threshold;
    if exceeded {
      var g :| g in counts && counts[g] > threshold;
      assert TargetsIn(targets, groupSize, g) > threshold;
    }
  }

  // ----- Transitions -----

  function Configure(e: Endpoint, context: M.AttackContext): Endpoint {
    e.(context := Some(context), plan := None, state := M.ContextReady)
  }

  function Discard(e: Endpoint): Endpoint {
    e.(plan := None, state := if e.context.Some? then M.ContextReady else M.Idle)
  }

  function StopExecution(e: Endpoint): Endpoint {
    if e.state == M.Idle || e.state == M.ContextReady then e else e.(state := M.Stopped)
  }

  predicate CanAccept(e: Endpoint, attackId: nat, roundId: M.Name) {
    e.plan.Some? && e.plan.value.attackId == attackId && e.plan.value.roundId == roundId && e.state == M.PlanPending
  }

  predicate CanSchedule(e: Endpoint, attackId: nat, roundId: M.Name, at: nat, now: nat) {
    e.plan.Some? && e.plan.value.attackId == attackId && e.plan.value.roundId == roundId && e.state == M.Ready
      && at > now + 100
  }

  /** A message's effect and the report it triggers. */
  datatype Reaction = Reaction(after: Endpoint, report: Option<M.FromEndpoint>)

  function Status(e: Endpoint): Option<M.FromEndpoint> {
    if e.plan.Some? then Some(M.StatusReport(e.plan.value.attackId, e.state)) else None
  }

  predicate Final(state: M.ExecutionState) {
    state == M.Completed || state == M.Stopped || state == M.Failed
  }

  /** What a change of state sends to every greeted client: at most one status in 250 ms, unless the state is final. */
  function Broadcast(e: Endpoint, force: bool, last: nat, now: nat): Option<M.FromEndpoint> {
    if e.plan == None || (!force && last <= now < last + 250) then None else Status(e)
  }

  function React(e: Endpoint, message: M.ToEndpoint, now: nat): Reaction {
    match message
    case RoundContext(context) => Reaction(Configure(e, context), None)
    case PlanDecision(attackId, roundId, accepted) =>
      if !accepted then Reaction(Discard(e), None)
      else if CanAccept(e, attackId, roundId)
      then Reaction(e.(state := M.Ready), Some(M.ReadyReport(attackId, roundId)))
      else Reaction(e, None)
    case RoundStart(attackId, roundId, at) =>
      if CanSchedule(e, attackId, roundId, at, now)
      then Reaction(e.(state := M.Scheduled), Some(M.StatusReport(attackId, M.Scheduled))) else Reaction(e, None)
    case Stop(_, _, _) => Reaction(StopExecution(e), Status(StopExecution(e)))
  }

  /** The plan that a submission builds; every submission uses up an identifier. */
  function NewPlan(e: Endpoint, kind: M.PlanKind, targets: seq<nat>): M.Plan
    requires e.context.Some?
  {
    M.Plan(e.nextAttackId, e.context.value.roundId, e.context.value.senderId, e.context.value.chainId, kind, targets)
  }

  // ----- What the endpoint answers and where it gets -----

  /** The held plan is accepted while it waits for that. */
  predicate Accepts(e: Endpoint, message: M.ToEndpoint) {
    && e.plan.Some? && e.state == M.PlanPending
    && message == M.PlanDecision(e.plan.value.attackId, e.plan.value.roundId, true)
  }

  /** A start for the ready plan, more than 100 ms ahead. */
  predicate Schedules(e: Endpoint, message: M.ToEndpoint, now: nat) {
    && e.plan.Some? && e.state == M.Ready && message.RoundStart? && message.at > now + 100
    && message.attackId == e.plan.value.attackId && message.roundId == e.plan.value.roundId
  }

  /** A new context or a refusal drops the plan. */
  predicate Drops(message: M.ToEndpoint) {
    message.RoundContext? || (message.PlanDecision? && !message.accepted)
  }

  /** Exactly which message takes the endpoint a step further, and that a stop, a refusal or a new context takes it off
      the way to execution. */
  lemma AdvancesIff(e: Endpoint, message: M.ToEndpoint, now: nat)
    requires e.Valid()
    ensures var r := React(e, message, now);
            var ends := Drops(message) || message.Stop?;
            && (r.after.state == M.Ready <==>
                  Accepts(e, message) || (e.state == M.Ready && !Schedules(e, message, now) && !ends))
            && (r.after.state == M.Scheduled <==> Schedules(e, message, now) || (e.state == M.Scheduled && !ends))
            && (r.after.state == M.Running <==> e.state == M.Running && !ends)
            && (r.after.state == M.PlanPending <==> e.state == M.PlanPending && !Accepts(e, message) && !ends)
            && r.after.plan == (if Drops(message) then None else e.plan)
            && r.after.context == (if message.RoundContext? then Some(message.context) else e.context)
            && r.after.nextAttackId == e.nextAttackId
  {
  }

  /** What is answered: a ready report to the acceptance, the new status to a start or a stop, and nothing else. */
  lemma AnswersIff(e: Endpoint, message: M.ToEndpoint, now: nat, report: M.FromEndpoint)
    requires e.Valid()
    ensures React(e, message, now).report == Some(report) <==>
            || (Accepts(e, message) && report == M.ReadyReport(message.attackId, message.roundId))
            || (Schedules(e, message, now) && report == M.StatusReport(message.attackId, M.Scheduled))
            || (message.Stop? && e.plan.Some? &&
                  report == M.StatusReport(e.plan.value.attackId, React(e, message, now).after.state))
  {
  }

  /** A stop, whatever it names, takes effect in every state: an endpoint that holds a plan on its way or in execution
      becomes Stopped, keeps plan and context and says so; one without a plan stays as it was. A stop by the user of
      the endpoint does the same. */
  lemma StopTakesEffect(e: Endpoint, attackId: nat, roundId: M.Name, emergency: bool, now: nat)
    requires e.Valid()
    ensures var r := React(e, M.Stop(attackId, roundId, emergency), now);
            && r.after == StopExecution(e) && !r.after.Admitted()
            && r.after.plan == e.plan && r.after.context == e.context && r.after.nextAttackId == e.nextAttackId
            && (e.state in {M.Idle, M.ContextReady} ==> r.after == e)
            && (e.state !in {M.Idle, M.ContextReady} ==> r.after.state == M.Stopped)
            && (e.state in {M.PlanPending, M.Ready, M.Scheduled, M.Running} ==>
                  r.report == Some(M.StatusReport(e.plan.value.attackId, M.Stopped)))
  {
  }

  /** A new context or a refusal leaves the endpoint waiting for a plan, or idle if it never had a context. */
  lemma DropTakesEffect(e: Endpoint, message: M.ToEndpoint, now: nat)
    requires e.Valid() && Drops(message)
    ensures var r := React(e, message, now);
            && r.report == None && r.after.plan == None
            && r.after.state == if r.after.context.Some? then M.ContextReady else M.Idle
  {
  }

  // ----- Status broadcasts over time -----

  /** The state after a change, and when it changed. */
  datatype Change = Change(endpoint: Endpoint, at: nat)

  datatype Sent = Sent(message: M.FromEndpoint, at: nat, final: bool)

  /** When the last status was broadcast; the channel starts at time 0. */
  function LastSent(sent: seq<Sent>): nat {
    if sent == [] then 0 else sent[|sent| - 1].at
  }

  /** What the channel broadcasts for a history of changes. */
  function Broadcasts(changes: seq<Change>): seq<Sent> {
    if changes == [] then []
    else
      var before := Broadcasts(changes[..|changes| - 1]);
      var c := changes[|changes| - 1];
      var report := Broadcast(c.endpoint, Final(c.endpoint.state), LastSent(before), c.at);
      if report.Some? then before + [Sent(report.value, c.at, Final(c.endpoint.state))] else before
  }

  ghost predicate TimesAscend(changes: seq<Change>) {
    forall i, j :: 0 <= i < j < |changes| ==> changes[i].at <= changes[j].at
  }

  /** Over every history of changes the statuses are broadcast in order, and one that is not final follows the one
      before it by at least 250 ms. */
  lemma {:induction false} BroadcastsAreSpaced(changes: seq<Change>)
    requires TimesAscend(changes)
    ensures forall i: nat, next: nat :: next == i + 1 < |Broadcasts(changes)| ==>
              && Broadcasts(changes)[i].at <= Broadcasts(changes)[next].at
              && (Broadcasts(changes)[next].final || Broadcasts(changes)[next].at >= Broadcasts(changes)[i].at + 250)
    ensures changes != [] ==> LastSent(Broadcasts(changes)) <= changes[|changes| - 1].at
  {
    if changes != [] {
      var n := |changes| - 1;
      BroadcastsAreSpaced(changes[..n]);
      if n > 0 { assert changes[..n][n - 1].at <= changes[n].at; }
    }
  }

  /** The latest change of an endpoint with a plan is broadcast, with the plan's identifier and the new state, if and
      only if it is final or the last broadcast is at least 250 ms old. */
  lemma BroadcastIff(changes: seq<Change>)
    requires changes != [] && TimesAscend(changes)
    ensures var n := |changes| - 1;
            var before, c := Broadcasts(changes[..n]), changes[n];
            var final := c.endpoint.state in {M.Completed, M.Stopped, M.Failed};
            Broadcasts(changes) ==
              if c.endpoint.plan.Some? && (final || c.at >= LastSent(before) + 250)
              then before + [Sent(M.StatusReport(c.endpoint.plan.value.attackId, c.endpoint.state), c.at, final)]
              else before
  {
    var n := |changes| - 1;
    BroadcastsAreSpaced(changes[..n]);
    if n > 0 { assert changes[..n][n - 1].at <= changes[n].at; }
  }

  class ExecutionController {
    var context: Option<M.AttackContext>
    var plan: Option<M.Plan>
    var state: M.ExecutionState
    var nextAttackId: nat

    function State(): Endpoint
      reads this
    {
      Endpoint(context, plan, state, nextAttackId)
    }

    ghost predicate Valid()
      reads this
    {
      State().Valid()
    }

    constructor ()
      ensures Valid() && State() == INITIAL
    {
      context, plan, state, nextAttackId := None, None, M.Idle, 1;
    }

    method ConfigureContext(received: M.AttackContext)
      modifies this
      ensures Valid() && State() == Configure(old(State()), received)
    {
      context, plan, state := Some(received), None, M.ContextReady;
    }

    method PreparePlan(submitted: M.Plan, confirmed: bool) returns (ok: bool)
      requires Valid() && submitted.attackId < nextAttackId
      requires context.Some? && context.value.improved ==> context.value.groupSize > 0
      modifies this
      ensures Valid() && ok == old(Preparable(State(), submitted, confirmed))
      ensures State() == if ok then old(State()).(plan := Some(submitted), state := M.PlanPending) else old(State())
    {
      if context == None || state == M.Running || state == M.Scheduled { return false; }
      if submitted.roundId != context.value.roundId { return false; }
      if submitted.kind != M.Dos {
        if submitted.senderId != context.value.senderId || submitted.chainId != context.value.chainId { return false; }
        var inRange := CheckIndexes(submitted.targets, context.value.packetCount);
        if !inRange { return false; }
        if submitted.kind == M.Tamper && context.value.improved && !confirmed {
          var exceeded := ExceedsThreshold(submitted.targets, context.value.groupSize, context.value.threshold);
          if exceeded { return false; }
        }
      }
      plan := Some(submitted);
      state := M.PlanPending;
      ok := true;
    }

    /** Submits a plan to the only greeted manager; a failed send takes the plan back. */
    method SubmitPlan(kind: M.PlanKind, targets: seq<nat>, confirmed: bool, managers: nat, linkUp: bool)
      returns (sent: Option<M.Plan>)
      requires Valid() && (context.Some? && context.value.improved ==> context.value.groupSize > 0)
      modifies this
      ensures Valid()
      ensures old(context == None) || managers != 1 ==> sent == None && State() == old(State())
      ensures old(context.Some?) && managers == 1 ==>
        var next := old(State()).(nextAttackId := old(nextAttackId) + 1);
        var submitted := old(NewPlan(State(), kind, targets));
        && (sent.Some? <==> old(Preparable(State(), submitted, confirmed)) && linkUp)
        && (sent.Some? ==> sent == Some(submitted) && State() == next.(plan := Some(submitted), state := M.PlanPending))
        && (sent == None ==> State() == if old(Preparable(State(), submitted, confirmed)) then Discard(next) else next)
    {
      if context == None || managers != 1 { return None; }
      var submitted := NewPlan(State(), kind, targets);
      nextAttackId := nextAttackId + 1;
      var prepared := PreparePlan(submitted, confirmed);
      if !prepared { return None; }
      if !linkUp {
        DiscardPlan();
        return None;
      }
      sent := Some(submitted);
    }

    method AcceptPlan(attackId: nat, roundId: M.Name) returns (ok: bool)
      requires Valid()
      modifies this
      ensures Valid() && ok == old(CanAccept(State(), attackId, roundId))
      ensures State() == if ok then old(State()).(state := M.Ready) else old(State())
    {
      if plan == None || plan.value.attackId != attackId || plan.value.roundId != roundId || state != M.PlanPending {
        return false;
      }
      state := M.Ready;
      ok := true;
    }

    method DiscardPlan()
      requires Valid()
      modifies this
      ensures Valid() && State() == Discard(old(State()))
    {
      plan := None;
      state := if context.Some? then M.ContextReady else M.Idle;
    }

    method ScheduleStart(attackId: nat, roundId: M.Name, at: nat, now: nat) returns (ok: bool)
      requires Valid()
      modifies this
      ensures Valid() && ok == old(CanSchedule(State(), attackId, roundId, at, now))
      ensures State() == if ok then old(State()).(state := M.Scheduled) else old(State())
    {
      if plan == None || plan.value.attackId != attackId || plan.value.roundId != roundId || state != M.Ready
        || at <= now + 100 {
        return false;
      }
      state := M.Scheduled;
      ok := true;
    }

    method StopWorker()
      requires Valid()
      modifies this
      ensures Valid() && State() == StopExecution(old(State()))
    {
      if state != M.Idle && state != M.ContextReady { state := M.Stopped; }
    }

    /** Dispatch of a control message after the greeting. */
    method HandleMessage(message: M.ToEndpoint, now: nat) returns (report: Option<M.FromEndpoint>)
      requires Valid()
      modifies this
      ensures Valid() && Reaction(State(), report) == React(old(State()), message, now)
    {
      report := None;
      match message
      case RoundContext(received) => ConfigureContext(received);
      case PlanDecision(attackId, roundId, accepted) =>
        if !accepted {
          DiscardPlan();
        } else {
          var ok := AcceptPlan(attackId, roundId);
          if ok { report := Some(M.ReadyReport(attackId, roundId)); }
        }
      case RoundStart(attackId, roundId, at) =>
        var ok := ScheduleStart(attackId, roundId, at, now);
        if ok { report := Some(M.StatusReport(attackId, state)); }
      case Stop(_, _, _) =>
        StopWorker();
        report := Status(State());
    }
  }

  class StatusChannel {
    var lastBroadcast: nat

    constructor ()
      ensures lastBroadcast == 0
    {
      lastBroadcast := 0;
    }

    method BroadcastExecutionStatus(execution: ExecutionController, force: bool, now: nat)
      returns (report: Option<M.FromEndpoint>)
      modifies this
      ensures report == Broadcast(execution.State(), force, old(lastBroadcast), now)
      ensures lastBroadcast == if report.Some? then now else old(lastBroadcast)
    {
      if execution.plan == None { return None; }
      if !force && lastBroadcast <= now && now - lastBroadcast < 250 { return None; }
      lastBroadcast := now;
      report := Status(execution.State());
    }

    /** Runs after every change of state. */
    method OnStateChanged(execution: ExecutionController, now: nat) returns (report: Option<M.FromEndpoint>)
      modifies this
      ensures report == Broadcast(execution.State(), Final(execution.state), old(lastBroadcast), now)
      ensures Final(execution.state) && execution.plan.Some? ==>
                report == Some(M.StatusReport(execution.plan.value.attackId, execution.state))
    {
      report := BroadcastExecutionStatus(execution, Final(execution.state), now);
    }
  }
}
