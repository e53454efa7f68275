/** Round control against a simpler reference: the flags of the gate say exactly how the requests of the preparation and
    its latest fault plan stand, and from every run a round can be prepared, started and completed. */
module RoundControl {
  import opened Bytes
  import opened Arithmetic
  import opened RoundGate
  import opened RoundRuns
  import Authority

  // ----- What a preparation asks for -----

  /** The positions of the participants that are told about a sender: some sender is hosted elsewhere. */
  function Listeners(participants: seq<nat>, senders: seq<SenderTarget>): set<nat> {
    set i: nat | i < |participants| && exists s :: s in senders && s.endpoint != participants[i]
  }

  lemma {:induction false} ContextsIff(p: nat, senders: seq<SenderTarget>)
    ensures ContextCount(p, senders) > 0 <==> exists s :: s in senders && s.endpoint != p
  {
    if senders != [] {
      var n := |senders| - 1;
      ContextsIff(p, senders[..n]);
      assert senders == senders[..n] + [senders[n]];
    }
  }

  lemma {:induction false} ListeningCount(participants: seq<nat>, senders: seq<SenderTarget>)
    ensures Listening(participants, senders) == |Listeners(participants, senders)|
  {
    if participants != [] {
      var n := |participants| - 1;
      ListeningCount(participants[..n], senders);
      ContextsIff(participants[n], senders);
      assert Listeners(participants, senders) == Listeners(participants[..n], senders) +
             if ContextCount(participants[n], senders) > 0 then {n} else {};
    }
  }

  /** Everything a preparation needs: no round runs, at least one sender and two nodes, accepted parameters, senders
      that are connected, material for each of them, and every request sent. */
  ghost predicate Succeeds(g: Gate, s: Step)
    requires s.Prepared?
  {
    && !g.running && |s.setup.endpoints| > 0 && |s.setup.participants| > 1 && s.setup.parametersAccepted
    && (forall e :: e in s.setup.endpoints ==> e in s.setup.participants)
    && |s.materials| == |s.setup.endpoints| && s.sent
  }

  lemma ConnectedIff(u: Setup)
    ensures Connected(u, |u.endpoints|) <==> forall e :: e in u.endpoints ==> e in u.participants
  {
  }

  /** A preparation that succeeds selects the nodes and senders of the request and leaves open exactly two requests for
      each sender and one for each participant with a sender elsewhere; it owes one result for each participant and
      sender. Any other leaves nothing prepared, and clears what was. */
  lemma PreparesExactly(m: Machine, s: Step)
    requires s.Prepared?
    ensures var g := Next(m, s).gate;
            && g.running == m.gate.running && !g.ready && !g.rejected && g.received == {} && g.faultPending == {}
            && !g.faultConfigured && !g.faultRejected && !g.faultReady
            && (!Succeeds(m.gate, s) ==>
                  g.roundId == None && g.participants == [] && g.senders == [] && g.length == 0 && g.pending == {}
                  && g.expected == 0)
            && (Succeeds(m.gate, s) ==>
                  && g.roundId == Some(s.setup.roundId) && g.participants == s.setup.participants
                  && g.length == s.setup.length && |g.senders| == |s.setup.endpoints|
                  && (forall i :: 0 <= i < |g.senders| ==>
                        g.senders[i] ==
                        SenderTarget(s.setup.endpoints[i], s.materials[i].senderId, s.materials[i].chainId))
                  && (forall q: nat :: q in g.pending <==>
                        s.base <= q < s.base + 2 * |g.senders| + |Listeners(g.participants, g.senders)|)
                  && g.expected == |g.participants| * |g.senders|)
  {
    hide Listening, Listeners, Connected;
    var g := Next(m, s).gate;
    ConnectedIff(s.setup);
    if Succeeds(m.gate, s) { ListeningCount(g.participants, g.senders); }
  }

  // ----- The reference -----

  /** How the latest fault plan stands. */
  datatype Fate = NoPlan | Asked(request: nat) | Confirmed | Refused

  /** How the preparation stands: its requests, those without an answer, and whether one was refused or a participant
      was lost while an answer was missing. */
  datatype Standing = Standing(requests: set<nat>, unanswered: set<nat>, spoiled: bool, fate: Fate)
  {
    predicate Accepted() {
      requests != {} && unanswered == {} && !spoiled
    }

    predicate Waiting() {
      unanswered != {} || fate.Asked?
    }
  }

  const NOTHING := Standing({}, {}, false, NoPlan)

  /** How things stand after one more step; `g` is the gate before it. */
  ghost function StandingNext(b: Standing, g: Gate, s: Step): Standing {
    match s
    case Prepared(setup, materials, base, _) =>
      if !Succeeds(g, s) then NOTHING
      else
        var n := 2 * |setup.endpoints| + |Listeners(setup.participants, Targets(setup.endpoints, materials))|;
        Standing(Requests(base, n), Requests(base, n), false, NoPlan)
    case ConfigurationAcked(request, accepted) =>
      if request in b.unanswered
      then b.(unanswered := b.unanswered - {request}, spoiled := b.spoiled || !accepted) else b
    case FaultConfigured(target, request, sent) =>
      if b.Accepted() && !g.running && target < |g.senders| && !b.fate.Asked?
      then b.(fate := if sent then Asked(request) else Refused) else b
    case FaultAcked(request, accepted) =>
      if b.fate == Asked(request) then b.(fate := if accepted then Confirmed else Refused) else b
    case ConnectionsChanged(connected) =>
      if b.Waiting() && exists p :: p in g.participants && p !in connected
      then b.(unanswered := {}, spoiled := true, fate := Refused) else b
    case _ => b
  }

  ghost function StandingAfter(steps: seq<Step>): Standing
    requires Execute(steps).Some?
  {
    if steps == [] then NOTHING
    else
      var n := |steps| - 1;
      StandingNext(StandingAfter(steps[..n]), Execute(steps[..n]).value.gate, steps[n])
  }

  /** The flags of the gate say how things stand. */
  ghost predicate Shows(g: Gate, b: Standing) {
    && g.pending == b.unanswered && g.pending <= b.requests && (g.rejected <==> b.spoiled)
    && (g.ready <==> b.Accepted())
    && g.faultPending == (if b.fate.Asked? then {b.fate.request} else {})
    && (g.faultRejected <==> b.fate == Refused) && (g.faultReady <==> b.fate == Confirmed)
    && (!b.spoiled ==> (g.faultConfigured <==> b.fate != NoPlan))
    && (b.fate.Asked? ==> b.Accepted())
  }

  lemma PreparationShows(m: Machine, b: Standing, s: Step)
    requires Shows(m.gate, b) && s.Prepared?
    ensures Shows(Next(m, s).gate, StandingNext(b, m.gate, s))
  {
    PreparesExactly(m, s);
    hide Next, Succeeds, Listeners;
    if Succeeds(m.gate, s) {
      var g := Next(m, s).gate;
      assert g.senders == Targets(s.setup.endpoints, s.materials);
      assert |s.setup.endpoints| > 0 by { assert Succeeds(m.gate, s); NeedsSenders(m.gate, s); }
      assert s.base in g.pending;
      hide Targets;
      assert g.pending == StandingNext(b, m.gate, s).requests;
    }
  }

  lemma NeedsSenders(g: Gate, s: Step)
    requires s.Prepared? && Succeeds(g, s)
    ensures |s.setup.endpoints| > 0
  {
  }

  lemma AnswerShows(m: Machine, b: Standing, s: Step)
    requires Shows(m.gate, b) && s.ConfigurationAcked?
    ensures Shows(Next(m, s).gate, StandingNext(b, m.gate, s))
  {
    hide Prepare, Start, Report, ConfigureFault, FaultAck, NodesChanged, Succeeds, Listeners, OwedResults, Requests;
  }

  lemma FaultShows(m: Machine, b: Standing, s: Step)
    requires Shows(m.gate, b) && (s.FaultConfigured? || s.FaultAcked?)
    ensures Shows(Next(m, s).gate, StandingNext(b, m.gate, s))
  {
    hide Prepare, Start, Report, ConfigurationAck, NodesChanged, Succeeds, Listeners, OwedResults, Requests;
  }

  lemma LossShows(m: Machine, b: Standing, s: Step)
    requires Shows(m.gate, b) && s.ConnectionsChanged?
    ensures Shows(Next(m, s).gate, StandingNext(b, m.gate, s))
  {
    hide Prepare, Start, Report, ConfigurationAck, ConfigureFault, FaultAck, Succeeds, Listeners, OwedResults, Requests;
  }

  /** Only what a running round consists of may differ. */
  ghost predicate SameFlags(g: Gate, h: Gate) {
    h == g.(roundId := h.roundId, received := h.received, running := h.running)
  }

  lemma RoundKeepsFlags(g: Gate, at: nat, now: nat, reachable: set<nat>, newId: nat, round: nat, key: ResultKey)
    ensures SameFlags(g, Start(g, at, now, reachable, newId))
    ensures SameFlags(g, Report(g, round, key)) && SameFlags(g, Stop(g, reachable))
  {
    hide MayStart, AllReached;
  }

  lemma StartShows(m: Machine, b: Standing, s: Step)
    requires Shows(m.gate, b) && s.Started?
    ensures Shows(Next(m, s).gate, StandingNext(b, m.gate, s))
  {
    hide Succeeds, Listeners, Requests, Start, OwedResults, MayStart;
    RoundKeepsFlags(m.gate, s.at, s.now, s.reachable, s.newId, 0, ResultKey(0, Sender, 0, 0));
    assert SameFlags(m.gate, Next(m, s).gate);
    hide Next;
  }

  lemma RoundShows(m: Machine, b: Standing, s: Step)
    requires Shows(m.gate, b) && (s.ResultReceived? || s.StoppedByUser?)
    ensures Shows(Next(m, s).gate, StandingNext(b, m.gate, s))
  {
    hide Succeeds, Listeners, Requests, Stop, Report, OwedResults;
    if s.ResultReceived? {
      RoundKeepsFlags(m.gate, 0, 0, {}, 0, s.round, s.key);
    } else {
      RoundKeepsFlags(m.gate, 0, 0, s.reachable, 0, 0, ResultKey(0, Sender, 0, 0));
    }
    assert SameFlags(m.gate, Next(m, s).gate);
    hide Next;
  }

  lemma StepShows(m: Machine, b: Standing, s: Step)
    requires Shows(m.gate, b)
    ensures Shows(Next(m, s).gate, StandingNext(b, m.gate, s))
  {
    hide Shows, Next, StandingNext;
    match s
    case Prepared(_, _, _, _) => PreparationShows(m, b, s);
    case ConfigurationAcked(_, _) => AnswerShows(m, b, s);
    case FaultConfigured(_, _, _) => FaultShows(m, b, s);
    case FaultAcked(_, _) => FaultShows(m, b, s);
    case ConnectionsChanged(_) => LossShows(m, b, s);
    case Started(_, _, _, _) => StartShows(m, b, s);
    case ResultReceived(_, _) => RoundShows(m, b, s);
    case StoppedByUser(_) => RoundShows(m, b, s);
  }

  lemma {:induction false} RunShows(steps: seq<Step>)
    requires Execute(steps).Some?
    ensures Shows(Execute(steps).value.gate, StandingAfter(steps))
  {
    if steps != [] {
      hide Shows, Next, StandingNext, Enabled;
      var n := |steps| - 1;
      RunShows(steps[..n]);
      StepShows(Execute(steps[..n]).value, StandingAfter(steps[..n]), steps[n]);
    } else {
      hide StandingNext;
    }
  }

  /** In every run a step makes a round run if and only if it is a start more than 100 ms ahead that reaches every
      participant while no round runs, every request of the preparation was accepted, no participant was lost while an
      answer was missing, and there is no fault plan or the latest one was confirmed. */
  lemma StartsIff(steps: seq<Step>, s: Step)
    requires Execute(steps).Some? && !Execute(steps).value.gate.running
    ensures var g, b := Execute(steps).value.gate, StandingAfter(steps);
            Next(Execute(steps).value, s).gate.running <==>
              && s.Started? && s.at > s.now + 100 && b.Accepted() && (b.fate == NoPlan || b.fate == Confirmed)
              && forall p :: p in g.participants ==> p in s.reachable
  {
    RunShows(steps);
    hide Execute, StandingNext, Succeeds, Requests, RequestCount, Targets, OwedResults;
  }

  /** In every run a running round goes on until a stop by the user that reaches every participant, or the result that
      completes what is expected of it. */
  lemma RunsOnIff(steps: seq<Step>, s: Step)
    requires Execute(steps).Some? && Execute(steps).value.gate.running
    ensures var g := Execute(steps).value.gate;
            !Next(Execute(steps).value, s).gate.running <==>
              || (s.StoppedByUser? && forall p :: p in g.participants ==> p in s.reachable)
              || (s.ResultReceived? && g.roundId == Some(s.round) && |g.received + {s.key}| >= g.expected)
  {
    hide Execute, Prepare, OwedResults;
    if s.Prepared? {
      PreparesExactly(Execute(steps).value, s);
      hide Next;
    } else if s.ResultReceived? {
      hide Start, Stop, ConfigurationAck, ConfigureFault, FaultAck, NodesChanged;
    } else {
      hide Report;
    }
  }

  /** A command goes to every participant that can be reached and to nobody else, and it has reached everyone exactly if
      those are all participants. */
  lemma TellsReachable(g: Gate, reachable: set<nat>)
    ensures forall p :: p in Told(g, reachable) <==> p in g.participants && p in reachable
    ensures AllReached(g, reachable) <==> forall p :: p in g.participants ==> p in Told(g, reachable)
  {
  }

  /** A fault plan is asked of a node if and only if the preparation was accepted, no round runs, the sender exists and
      no other plan is unanswered. */
  lemma FaultAskedIff(steps: seq<Step>, target: nat, request: nat)
    requires Execute(steps).Some?
    ensures var g, b := Execute(steps).value.gate, StandingAfter(steps);
            MayConfigureFault(g, target) <==>
              b.Accepted() && !g.running && target < |g.senders| && !b.fate.Asked?
  {
    RunShows(steps);
    hide Execute, StandingAfter;
  }

  // ----- A whole round -----

  lemma Then(steps: seq<Step>, m: Machine, s: Step) returns (more: seq<Step>, n: Machine)
    requires Execute(steps) == Some(m) && Enabled(m, s)
    ensures more == steps + [s] && n == Next(m, s) && Execute(more) == Some(n)
  {
    Extend(steps, m, s);
    more, n := steps + [s], Next(m, s);
  }

  /** Every answer that is still open arrives and is positive. */
  lemma {:induction false} AllAccept(steps: seq<Step>, m: Machine, base: nat, n: nat)
    returns (more: seq<Step>, after: Machine)
    requires Execute(steps) == Some(m) && m.gate.pending == Requests(base, n) && n > 0 && !m.gate.rejected
    ensures Execute(more) == Some(after) && steps <= more && after.issued == m.issued
    ensures after.gate == m.gate.(pending := {}, ready := true)
    decreases n
  {
    hide Execute, Requests;
    more, after := Then(steps, m, ConfigurationAcked(base, true));
    if n > 1 {
      assert base + 1 in after.gate.pending;
      assert after.gate.pending == Requests(base + 1, n - 1) && m.gate.ready == after.gate.ready;
      more, after := AllAccept(more, after, base + 1, n - 1);
    } else {
      assert after.gate.pending == {};
    }
  }

  ghost predicate SameRun(m: Machine, n: Machine) {
    n.begun == m.begun && n.disturbed == m.disturbed && n.round == m.round && n.owed == m.owed
  }

  lemma {:induction false} AllReport(steps: seq<Step>, m: Machine, round: nat, results: seq<ResultKey>)
    returns (more: seq<Step>, after: Machine)
    requires Execute(steps) == Some(m) && m.begun && m.round == Some(round) && m.reported == {}
    ensures Execute(more) == Some(after) && steps <= more && SameRun(m, after)
    ensures forall k :: k in after.reported <==> k in results
  {
    hide Execute, Report;
    if results == [] { return steps, m; }
    var n := |results| - 1;
    more, after := AllReport(steps, m, round, results[..n]);
    more, after := Then(more, after, ResultReceived(round, results[n]));
    assert results == results[..n] + [results[n]];
  }

  /** What a user can ask for at any time, with new material for each sender. */
  ghost predicate CanPrepare(m: Machine, setup: Setup, materials: seq<Authority.Material>) {
    && |setup.endpoints| > 0 && |setup.participants| > 1 && setup.parametersAccepted
    && (forall e :: e in setup.endpoints ==> e in setup.participants)
    && NoRepeats(setup.participants) && |materials| == |setup.endpoints|
    && Authority.AllDistinct(m.issued + materials)
  }

  /** The preparation was sent and waits for its answers; there is no fault plan. */
  ghost predicate Waits(g: Gate, setup: Setup, materials: seq<Authority.Material>, open: set<nat>)
    requires |materials| == |setup.endpoints|
  {
    && g.pending == open && !g.rejected && !g.running
    && g.faultPending == {} && !g.faultRejected && !g.faultConfigured
    && g.roundId == Some(setup.roundId) && g.participants == setup.participants
    && g.senders == Targets(setup.endpoints, materials)
  }

  /** A round has begun and no result has arrived. */
  ghost predicate HasBegun(m: Machine, round: nat, owed: set<ResultKey>) {
    m.gate.running && m.begun && !m.disturbed && m.round == Some(round) && m.reported == {} && m.owed == owed
  }

  lemma Preparing(steps: seq<Step>, m: Machine, setup: Setup, materials: seq<Authority.Material>, base: nat)
    returns (more: seq<Step>, n: Machine, count: nat)
    requires Execute(steps) == Some(m) && CanPrepare(m, setup, materials) && !m.gate.running
    ensures Execute(more) == Some(n) && steps <= more && count > 0
    ensures Waits(n.gate, setup, materials, Requests(base, count))
  {
    var s := Prepared(setup, materials, base, true);
    assert Succeeds(m.gate, s) && Enabled(m, s);
    PreparesExactly(m, s);
    hide Execute, Next, Succeeds, Targets, Authority.AllDistinct, NoRepeats, Listeners, Requests;
    more, n := Then(steps, m, s);
    count := 2 * |n.gate.senders| + |Listeners(n.gate.participants, n.gate.senders)|;
    assert n.gate.pending == Requests(base, count);
  }

  lemma Starting(steps: seq<Step>, m: Machine, at: nat, now: nat) returns (more: seq<Step>, n: Machine)
    requires Execute(steps) == Some(m) && m.gate.ready && !m.gate.running && at > now + 100 && m.gate.roundId.Some?
    requires m.gate.faultPending == {} && !m.gate.faultRejected && !m.gate.faultConfigured
    ensures Execute(more) == Some(n) && steps <= more
    ensures HasBegun(n, m.gate.roundId.value, OwedResults(m.gate.participants, m.gate.senders))
  {
    hide Execute, OwedResults;
    more, n := Then(steps, m, Started(at, now, set p | p in m.gate.participants, 0));
  }

  lemma Stopping(steps: seq<Step>, m: Machine) returns (more: seq<Step>, n: Machine)
    requires Execute(steps) == Some(m)
    ensures Execute(more) == Some(n) && steps <= more && !n.gate.running && n.issued == m.issued
  {
    hide Execute;
    more, n := Then(steps, m, StoppedByUser(set p | p in m.gate.participants));
  }

  /** The round of a preparation runs and owes one result for each participant and sender. */
  ghost predicate HasStarted(steps: seq<Step>, setup: Setup, materials: seq<Authority.Material>)
    requires |materials| == |setup.endpoints|
  {
    && Execute(steps).Some?
    && HasBegun(Execute(steps).value, setup.roundId,
                OwedResults(setup.participants, Targets(setup.endpoints, materials)))
  }

  /** The round of a preparation has ended by itself with every owed result. */
  ghost predicate HasEnded(steps: seq<Step>, setup: Setup, materials: seq<Authority.Material>)
    requires |materials| == |setup.endpoints|
  {
    && Execute(steps).Some?
    && var m := Execute(steps).value;
       && !m.gate.running && m.begun && m.round == Some(setup.roundId) && m.reported == m.owed
       && m.owed == OwedResults(setup.participants, Targets(setup.endpoints, materials))
       && |m.owed| == |setup.endpoints| * |setup.participants|
  }

  /** From every run, also one with an abandoned round: after a stop, any acceptable round can be prepared, accepted by
      all nodes and started; and then the owed results, in any order and however often repeated, end it. */
  lemma RoundCompletes(steps: seq<Step>, setup: Setup, materials: seq<Authority.Material>, base: nat, at: nat, now: nat,
      results: seq<ResultKey>)
    returns (started: seq<Step>, completed: seq<Step>)
    requires Execute(steps).Some? && CanPrepare(Execute(steps).value, setup, materials) && at > now + 100
    requires forall k :: k in results <==> k in OwedResults(setup.participants, Targets(setup.endpoints, materials))
    ensures steps <= started <= completed
    ensures HasStarted(started, setup, materials) && HasEnded(completed, setup, materials)
  {
    var m0 := Execute(steps).value;
    hide Execute, OwedResults, Targets, Requests, NoRepeats, Authority.AllDistinct;
    var m, count;
    started, m := Stopping(steps, m0);
    started, m, count := Preparing(started, m, setup, materials, base);
    started, m := AllAccept(started, m, base, count);
    started, m := Starting(started, m, at, now);
    completed, m := AllReport(started, m, setup.roundId, results);
    EndsExactlyWhenComplete(completed);
    IssuedChainsDiffer(m0.issued, setup.endpoints, materials);
    OwedCount(setup.participants, Targets(setup.endpoints, materials));
    assert m.reported == m.owed;
  }
}
