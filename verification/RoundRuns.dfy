/** Whole runs of the round gate: a round starts only after every acknowledgement, and it ends by itself exactly when
    every owed result has arrived, unless a preparation was attempted while it ran. */
module RoundRuns {
  import opened Bytes
  import opened Arithmetic
  import opened RoundGate
  import Authority

  /** The gate with its history. Of the current preparation: the requests it sent, the positive answers, the latest
      fault request. Of the round begun last: its identifier, the results owed for it, the results that reached the
      manager since it began, and whether a preparation was attempted while it ran. `issued` is all material ever
      issued. */
  datatype Machine = Machine(
    gate: Gate, requests: set<nat>, positive: set<nat>, faultRequest: Option<nat>, faultPositive: set<nat>,
    issued: seq<Authority.Material>,
    begun: bool, round: Option<nat>, owed: set<ResultKey>, reported: set<ResultKey>, disturbed: bool)

  const INITIAL := Machine(EMPTY, {}, {}, None, {}, [], false, None, {}, {}, false)

  datatype Step =
    | Prepared(setup: Setup, materials: seq<Authority.Material>, base: nat, sent: bool)
    | ConfigurationAcked(request: nat, accepted: bool)
    | FaultConfigured(target: nat, request: nat, sent: bool)
    | FaultAcked(request: nat, accepted: bool)
    | ConnectionsChanged(connected: set<nat>)
    | Started(at: nat, now: nat, reachable: set<nat>, newId: nat)
    | ResultReceived(round: nat, key: ResultKey)
    | StoppedByUser(reachable: set<nat>)

  /** The authority issues only new material, at most one for each selected sender. */
  ghost predicate Enabled(m: Machine, s: Step) {
    s.Prepared? ==>
      && NoRepeats(s.setup.participants) && |s.materials| <= |s.setup.endpoints|
      && Authority.AllDistinct(m.issued + s.materials)
  }

  function PrepareNext(m: Machine, s: Step): Machine
    requires s.Prepared?
  {
    var after := Prepare(m.gate, s.setup, s.materials, s.base, s.sent);
    var asked := m.(gate := after, requests := after.pending, positive := {}, faultRequest := None, faultPositive := {},
                    issued := m.issued + s.materials);
    if m.gate.running then asked.(disturbed := true) else asked.(begun := false, disturbed := false)
  }

  function StartNext(m: Machine, s: Step): Machine
    requires s.Started?
  {
    var after := Start(m.gate, s.at, s.now, s.reachable, s.newId);
    if !MayStart(m.gate, s.at, s.now) then m.(gate := after)
    else m.(gate := after, begun := after.running, round := after.roundId,
            owed := OwedResults(after.participants, after.senders), reported := {}, disturbed := false)
  }

  function Next(m: Machine, s: Step): Machine {
    match s
    case Prepared(_, _, _, _) => PrepareNext(m, s)
    case ConfigurationAcked(request, accepted) =>
      m.(gate := ConfigurationAck(m.gate, request, accepted),
         positive := if accepted then m.positive + {request} else m.positive)
    case FaultConfigured(target, request, sent) =>
      var after := ConfigureFault(m.gate, target, request, sent);
      m.(gate := after, faultRequest := if after == m.gate then m.faultRequest else Some(request),
         faultPositive := if after == m.gate then m.faultPositive else m.faultPositive - {request})
    case FaultAcked(request, accepted) =>
      m.(gate := FaultAck(m.gate, request, accepted),
         faultPositive := if accepted && request in m.gate.faultPending then m.faultPositive + {request}
                          else m.faultPositive)
    case ConnectionsChanged(connected) => m.(gate := NodesChanged(m.gate, connected))
    case Started(_, _, _, _) => StartNext(m, s)
    case ResultReceived(round, key) =>
      m.(gate := Report(m.gate, round, key),
         reported := if m.round == Some(round) then m.reported + {key} else m.reported)
    case StoppedByUser(reachable) =>
      var after := Stop(m.gate, reachable);
      if m.gate.running && !after.running then m.(gate := after, begun := false, disturbed := false)
      else m.(gate := after)
  }

  /** The state after a run, if every step of it was enabled. */
  ghost function Execute(steps: seq<Step>): Option<Machine> {
    if steps == [] then Some(INITIAL)
    else
      var before := Execute(steps[..|steps| - 1]);
      var s := steps[|steps| - 1];
      if before.Some? && Enabled(before.value, s) then Some(Next(before.value, s)) else None
  }

  // ----- The start gate -----

  ghost predicate AnswersOk(m: Machine) {
    var g := m.gate;
    && (!g.rejected ==> m.requests <= g.pending + m.positive)
    && (g.ready ==> m.requests <= m.positive && g.pending == {} && !g.rejected)
    && (g.faultPending != {} ==> m.faultRequest.Some? && g.faultPending == {m.faultRequest.value})
    && (g.faultConfigured ==> m.faultRequest.Some?)
    && (g.faultReady ==> m.faultRequest.Some? && m.faultRequest.value in m.faultPositive)
  }

  lemma FaultKeepsAnswers(m: Machine, s: Step)
    requires AnswersOk(m) && (s.FaultConfigured? || s.FaultAcked?)
    ensures AnswersOk(Next(m, s))
  {
    hide Prepare, Start, Report, ConfigurationAck, NodesChanged, OwedResults;
  }

  lemma PreparationKeepsAnswers(m: Machine, s: Step)
    requires s.Prepared?
    ensures AnswersOk(Next(m, s))
  {
    hide Requests, RequestCount, Targets, Acceptable;
  }

  lemma ConfigurationKeepsAnswers(m: Machine, s: Step)
    requires AnswersOk(m) && s.ConfigurationAcked?
    ensures AnswersOk(Next(m, s))
  {
    hide Prepare, Start, Report, ConfigureFault, FaultAck, NodesChanged, OwedResults;
    assert m.requests <= m.gate.pending + m.positive ==>
      m.requests <= (m.gate.pending - {s.request}) + (m.positive + {s.request});
  }

  lemma NextKeepsAnswers(m: Machine, s: Step)
    requires AnswersOk(m)
    ensures AnswersOk(Next(m, s))
  {
    hide Prepare, OwedResults;
    if s.FaultConfigured? || s.FaultAcked? {
      FaultKeepsAnswers(m, s);
    } else if s.Prepared? {
      PreparationKeepsAnswers(m, s);
    } else if s.ConfigurationAcked? {
      ConfigurationKeepsAnswers(m, s);
    }
    hide ConfigurationAck, ConfigureFault, FaultAck;
  }

  lemma {:induction false} RunKeepsAnswers(steps: seq<Step>)
    requires Execute(steps).Some?
    ensures AnswersOk(Execute(steps).value)
  {
    if steps != [] {
      hide AnswersOk, Next, Enabled;
      RunKeepsAnswers(steps[..|steps| - 1]);
      NextKeepsAnswers(Execute(steps[..|steps| - 1]).value, steps[|steps| - 1]);
    }
  }

  /** A round begins only after every request of the current preparation was acknowledged positively and, if a fault
      plan was configured, the latest one was confirmed. */
  lemma StartedOnlyWhenAcknowledged(steps: seq<Step>, s: Step)
    requires Execute(steps).Some? && !Execute(steps).value.gate.running && Next(Execute(steps).value, s).gate.running
    ensures var m := Execute(steps).value;
            && m.requests <= m.positive
            && (m.gate.faultConfigured ==> m.faultRequest.Some? && m.faultRequest.value in m.faultPositive)
  {
    RunKeepsAnswers(steps);
    hide Execute, Requests, RequestCount, Targets, OwedResults;
  }

  // ----- The owed results -----

  /** The result that participant p owes for a sender: the sender's own node reports as sender, every other as
      receiver. */
  function OwedKey(p: nat, s: SenderTarget): ResultKey {
    ResultKey(p, if s.endpoint == p then Sender else Receiver, s.senderId, s.chainId)
  }

  function OwedBy(p: nat, senders: seq<SenderTarget>): set<ResultKey> {
    if senders == [] then {} else OwedBy(p, senders[..|senders| - 1]) + {OwedKey(p, senders[|senders| - 1])}
  }

  function OwedResults(participants: seq<nat>, senders: seq<SenderTarget>): set<ResultKey> {
    if participants == [] then {}
    else OwedResults(participants[..|participants| - 1], senders) + OwedBy(participants[|participants| - 1], senders)
  }

  ghost predicate ChainsDiffer(senders: seq<SenderTarget>) {
    forall i, j :: 0 <= i < j < |senders| ==> senders[i].chainId != senders[j].chainId
  }

  lemma {:induction false} OwedByCount(p: nat, senders: seq<SenderTarget>)
    requires ChainsDiffer(senders)
    ensures |OwedBy(p, senders)| == |senders|
    ensures forall k :: k in OwedBy(p, senders) ==>
              k.endpoint == p && exists i :: 0 <= i < |senders| && senders[i].chainId == k.chainId
  {
    if senders != [] {
      var n := |senders| - 1;
      OwedByCount(p, senders[..n]);
      assert OwedKey(p, senders[n]).chainId == senders[n].chainId;
      forall k | k in OwedBy(p, senders[..n])
        ensures k.endpoint == p && exists i :: 0 <= i < |senders| && senders[i].chainId == k.chainId && i != n
      {
        var i :| 0 <= i < n && senders[..n][i].chainId == k.chainId;
        assert senders[i].chainId == k.chainId;
      }
    }
  }

  /** Chain identifiers are unique, so the owed results are as many as the manager expects. */
  lemma {:induction false} OwedCount(participants: seq<nat>, senders: seq<SenderTarget>)
    requires ChainsDiffer(senders) && NoRepeats(participants)
    ensures |OwedResults(participants, senders)| == |senders| * |participants|
    ensures forall k :: k in OwedResults(participants, senders) ==> k.endpoint in participants
  {
    if participants != [] {
      var n: nat := |participants| - 1;
      var p := participants[n];
      OwedCount(participants[..n], senders);
      OwedByCount(p, senders);
      assert OwedResults(participants[..n], senders) !! OwedBy(p, senders);
      AddOneProduct(n, |senders|);
    }
  }

  // ----- When a round ends by itself -----

  /** What the current preparation fixes, so that its round has distinct owed results. */
  ghost predicate PreparationOk(g: Gate) {
    if g.roundId == None then g == EMPTY.(running := g.running)
    else
      && NoRepeats(g.participants) && ChainsDiffer(g.senders) && g.senders != [] && g.participants != []
      && g.expected == |g.senders| * |g.participants|
  }

  ghost predicate RoundOk(m: Machine) {
    && (m.gate.running || m.disturbed ==> m.begun)
    && (m.begun && m.disturbed ==> m.gate == EMPTY.(running := true))
    && (m.begun && !m.disturbed ==>
          && m.gate.roundId.Some? && m.round == m.gate.roundId
          && m.owed == OwedResults(m.gate.participants, m.gate.senders)
          && m.gate.received == m.reported && (m.gate.running <==> |m.reported| < m.gate.expected))
  }

  ghost predicate Inv(m: Machine) {
    Authority.AllDistinct(m.issued) && PreparationOk(m.gate) && RoundOk(m)
  }

  /** The chain identifiers of one preparation were issued in it, so they differ. */
  lemma IssuedChainsDiffer(issued: seq<Authority.Material>, endpoints: seq<nat>, materials: seq<Authority.Material>)
    requires |endpoints| == |materials| && Authority.AllDistinct(issued + materials)
    ensures ChainsDiffer(Targets(endpoints, materials))
  {
    var senders := Targets(endpoints, materials);
    forall i, j | 0 <= i < j < |senders| ensures senders[i].chainId != senders[j].chainId {
      assert (issued + materials)[|issued| + i] == materials[i] && (issued + materials)[|issued| + j] == materials[j];
    }
  }

  lemma PrepareKeepsInv(m: Machine, s: Step)
    requires Inv(m) && s.Prepared? && Enabled(m, s)
    ensures Inv(Next(m, s))
  {
    if |s.materials| == |s.setup.endpoints| { IssuedChainsDiffer(m.issued, s.setup.endpoints, s.materials); }
    hide Authority.AllDistinct, Requests, RequestCount, OwedResults, ChainsDiffer;
  }

  lemma StartKeepsInv(m: Machine, s: Step)
    requires Inv(m) && s.Started?
    ensures Inv(Next(m, s))
  {
    hide Authority.AllDistinct, OwedResults, ChainsDiffer, NoRepeats;
    var g := m.gate;
    if g.roundId.Some? { MulMonotone(1, 1, |g.senders|, |g.participants|); }
  }

  lemma OneMoreReported(received: set<ResultKey>, key: ResultKey)
    ensures |received| <= |received + {key}|
  {
    if key in received { assert received + {key} == received; }
  }

  lemma CountedKeepsInv(m: Machine, round: nat, key: ResultKey)
    requires Inv(m) && m.gate.roundId == Some(round)
    ensures Inv(Next(m, ResultReceived(round, key)))
  {
    hide Authority.AllDistinct, OwedResults, ChainsDiffer, NoRepeats;
    OneMoreReported(m.gate.received, key);
    assert !m.disturbed;
  }

  lemma ResultKeepsInv(m: Machine, s: Step)
    requires Inv(m) && s.ResultReceived?
    ensures Inv(Next(m, s))
  {
    hide Authority.AllDistinct, OwedResults, PreparationOk;
    if m.gate.roundId == Some(s.round) {
      CountedKeepsInv(m, s.round, s.key);
    } else {
      assert Report(m.gate, s.round, s.key) == m.gate;
    }
    hide Report;
  }

  /** The round itself is untouched; without a prepared round nothing at all changes. */
  ghost predicate SameRound(g: Gate, h: Gate) {
    && h.roundId == g.roundId && h.participants == g.participants && h.senders == g.senders
    && h.expected == g.expected && h.received == g.received && h.running == g.running
    && (g.roundId == None ==> h == g)
  }

  lemma AnswersKeepRound(g: Gate, request: nat, accepted: bool)
    requires PreparationOk(g)
    ensures SameRound(g, ConfigurationAck(g, request, accepted)) && SameRound(g, FaultAck(g, request, accepted))
  {
    hide NoRepeats, ChainsDiffer;
  }

  lemma ChecksKeepRound(g: Gate, target: nat, request: nat, sent: bool, connected: set<nat>)
    requires PreparationOk(g)
    ensures SameRound(g, ConfigureFault(g, target, request, sent)) && SameRound(g, NodesChanged(g, connected))
  {
    hide NoRepeats, ChainsDiffer;
  }

  lemma SameRoundKeepsInv(m: Machine, n: Machine)
    requires Inv(m) && SameRound(m.gate, n.gate) && n.issued == m.issued && n.begun == m.begun
    requires n.round == m.round && n.owed == m.owed && n.reported == m.reported && n.disturbed == m.disturbed
    ensures Inv(n)
  {
    hide Authority.AllDistinct, OwedResults, ChainsDiffer, NoRepeats;
  }

  lemma StopKeepsInv(m: Machine, s: Step)
    requires Inv(m) && s.StoppedByUser?
    ensures Inv(Next(m, s))
  {
    hide Authority.AllDistinct, OwedResults, ChainsDiffer, NoRepeats, AllReached;
  }

  lemma AnswerKeepsInv(m: Machine, s: Step)
    requires Inv(m) && (s.ConfigurationAcked? || s.FaultConfigured? || s.FaultAcked? || s.ConnectionsChanged?)
    ensures Inv(Next(m, s))
  {
    match s {
      case ConfigurationAcked(request, accepted) => AnswersKeepRound(m.gate, request, accepted);
      case FaultAcked(request, accepted) => AnswersKeepRound(m.gate, request, accepted);
      case FaultConfigured(target, request, sent) => ChecksKeepRound(m.gate, target, request, sent, {});
      case ConnectionsChanged(connected) => ChecksKeepRound(m.gate, 0, 0, false, connected);
    }
    hide SameRound, ConfigurationAck, FaultAck, ConfigureFault, NodesChanged, Inv;
    SameRoundKeepsInv(m, Next(m, s));
  }

  lemma NextKeepsInv(m: Machine, s: Step)
    requires Inv(m) && Enabled(m, s)
    ensures Inv(Next(m, s))
  {
    if s.Prepared? {
      PrepareKeepsInv(m, s);
    } else if s.Started? {
      StartKeepsInv(m, s);
    } else if s.ResultReceived? {
      ResultKeepsInv(m, s);
    } else if s.StoppedByUser? {
      StopKeepsInv(m, s);
    } else {
      AnswerKeepsInv(m, s);
    }
    hide Inv, Next, Enabled;
  }

  lemma {:induction false} RunKeepsInv(steps: seq<Step>)
    requires Execute(steps).Some?
    ensures Inv(Execute(steps).value)
  {
    if steps != [] {
      hide Inv, Next, Enabled;
      RunKeepsInv(steps[..|steps| - 1]);
      NextKeepsInv(Execute(steps[..|steps| - 1]).value, steps[|steps| - 1]);
    }
  }

  /** In every run, a round that has begun and that the user has not stopped still runs if and only if a preparation was
      attempted while it ran, or fewer results have arrived than are owed. As long as nodes report only what they owe,
      the latter means that an owed result is missing. */
  lemma EndsExactlyWhenComplete(steps: seq<Step>)
    requires Execute(steps).Some? && Execute(steps).value.begun
    ensures var m := Execute(steps).value;
            && (m.gate.running <==> m.disturbed || |m.reported| < |m.owed|)
            && (m.reported <= m.owed ==> (m.gate.running <==> m.disturbed || m.reported != m.owed))
  {
    RunKeepsInv(steps);
    var m := Execute(steps).value;
    hide Execute, OwedResults;
    if !m.disturbed { OwedCount(m.gate.participants, m.gate.senders); }
    if m.reported <= m.owed { SmallerSubset(m.reported, m.owed); }
  }

  lemma SmallerSubset(a: set<ResultKey>, b: set<ResultKey>)
    requires a <= b
    ensures |a| < |b| <==> a != b
  {
    assert b == a + (b - a);
    if |a| >= |b| { assert b - a == {}; }
  }

  // ----- A preparation during a round -----

  /** Such a preparation leaves a running round without identifier, participants and interval length (by which a pause
      divides). Nothing but the user's stop changes that again, and the stop tells no node. */
  lemma {:induction false} AbandonedUntilStopped(steps: seq<Step>, more: seq<Step>)
    requires Execute(steps).Some? && Execute(steps).value.disturbed && Execute(steps + more).Some?
    requires forall s :: s in more ==> !s.StoppedByUser?
    ensures Execute(steps + more).value.gate == EMPTY.(running := true)
    ensures Execute(steps + more).value.disturbed
    ensures forall reachable :: Told(Execute(steps + more).value.gate, reachable) == {} &&
                                !Stop(Execute(steps + more).value.gate, reachable).running
  {
    if more == [] {
      RunKeepsInv(steps);
      assert steps + more == steps;
    } else {
      var n := |more| - 1;
      assert (steps + more)[..|steps| + n] == steps + more[..n];
      AbandonedUntilStopped(steps, more[..n]);
      hide Enabled, Next;
      AbandonedStays(Execute(steps + more[..n]).value, more[n]);
    }
  }

  lemma AbandonedStays(m: Machine, s: Step)
    requires m.gate == EMPTY.(running := true) && m.disturbed && !s.StoppedByUser?
    ensures Next(m, s).gate == EMPTY.(running := true) && Next(m, s).disturbed
  {
    hide OwedResults;
  }

  lemma Extend(steps: seq<Step>, m: Machine, s: Step)
    requires Execute(steps) == Some(m) && Enabled(m, s)
    ensures Execute(steps + [s]) == Some(Next(m, s))
  {
    assert (steps + [s])[..|steps|] == steps;
  }

  function FirstStep(x: Authority.Material): Step {
    Prepared(Setup(7, [1, 2], [1], 100, true), [x], 0, true)
  }

  /** Two nodes, one of them a sender, prepared, acknowledged and started. */
  function StartedRun(x: Authority.Material): seq<Step> {
    [FirstStep(x)] +
    [ConfigurationAcked(0, true)] + [ConfigurationAcked(1, true)] + [ConfigurationAcked(2, true)] +
    [Started(1000, 0, {1, 2}, 0)]
  }

  lemma OneListener(s: SenderTarget)
    requires s.endpoint == 1
    ensures RequestCount([1, 2], [s]) == 3
  {
    assert [1, 2][..1] == [1] && [s][..0] == [];
    assert ContextCount(1, [s]) == ContextCount(1, []) == 0;
    assert ContextCount(2, [s]) == ContextCount(2, []) + 1;
    assert Listening([1], [s]) == Listening([], [s]) == 0;
  }

  /** The machine of that run while its requests are being answered. */
  function Waiting(x: Authority.Material, pending: set<nat>, ready: bool, positive: set<nat>): Machine {
    var g := Gate(Some(7), [1, 2], [SenderTarget(1, x.senderId, x.chainId)], 100, pending, false, ready,
                  {}, false, false, false, false, 2, {});
    INITIAL.(gate := g, requests := {0, 1, 2}, positive := positive, issued := [x])
  }

  lemma PreparesNow(x: Authority.Material)
    requires x.chainId != 0
    ensures Next(INITIAL, FirstStep(x)) == Waiting(x, {0, 1, 2}, false, {}) && Enabled(INITIAL, FirstStep(x))
  {
    OneListener(SenderTarget(1, x.senderId, x.chainId));
    assert Requests(0, 3) == {0, 1, 2};
    assert Targets([1], [x]) == [SenderTarget(1, x.senderId, x.chainId)];
    hide Requests, RequestCount, Targets;
  }

  lemma AnswersNow(x: Authority.Material)
    ensures Next(Waiting(x, {0, 1, 2}, false, {}), ConfigurationAcked(0, true)) == Waiting(x, {1, 2}, false, {0})
    ensures Next(Waiting(x, {1, 2}, false, {0}), ConfigurationAcked(1, true)) == Waiting(x, {2}, false, {0, 1})
    ensures Next(Waiting(x, {2}, false, {0, 1}), ConfigurationAcked(2, true)) == Waiting(x, {}, true, {0, 1, 2})
  {
    assert {0, 1, 2} - {0} == {1, 2} && {1, 2} - {1} == {2} && {2} - {2} == {};
  }

  /** The same machine once the round has begun. */
  function Underway(x: Authority.Material): Machine {
    var m := Waiting(x, {}, true, {0, 1, 2});
    m.(gate := m.gate.(running := true), begun := true, round := Some(7), owed := OwedResults([1, 2], m.gate.senders))
  }

  lemma StartsNow(x: Authority.Material)
    ensures Next(Waiting(x, {}, true, {0, 1, 2}), Started(1000, 0, {1, 2}, 0)) == Underway(x)
  {
    hide OwedResults;
  }

  lemma StartedRunRuns(x: Authority.Material)
    requires x.chainId != 0
    ensures Execute(StartedRun(x)) == Some(Underway(x))
  {
    assert Execute([]) == Some(INITIAL);
    hide Next, Waiting, Underway, Execute, FirstStep;
    PreparesNow(x);
    AnswersNow(x);
    StartsNow(x);
    var first := FirstStep(x);
    Extend([], INITIAL, first);
    assert [] + [first] == [first];
    var r1 := [first] + [ConfigurationAcked(0, true)];
    var r2 := r1 + [ConfigurationAcked(1, true)];
    Extend([first], Waiting(x, {0, 1, 2}, false, {}), ConfigurationAcked(0, true));
    Extend(r1, Waiting(x, {1, 2}, false, {0}), ConfigurationAcked(1, true));
    Extend(r2, Waiting(x, {2}, false, {0, 1}), ConfigurationAcked(2, true));
    Extend(r2 + [ConfigurationAcked(2, true)], Waiting(x, {}, true, {0, 1, 2}), Started(1000, 0, {1, 2}, 0));
  }

  /** A run in which every owed result arrives and the round still runs: a preparation was attempted in between. */
  lemma AbandonedRound(x: Authority.Material, setup: Setup)
    requires x.chainId != 0 && NoRepeats(setup.participants)
    ensures var steps := StartedRun(x) + [Prepared(setup, [], 0, true)] +
                         [ResultReceived(7, ResultKey(1, Sender, x.senderId, x.chainId))] +
                         [ResultReceived(7, ResultKey(2, Receiver, x.senderId, x.chainId))];
            && Execute(steps).Some?
            && var m := Execute(steps).value;
               && m.begun && m.disturbed && m.reported == m.owed && |m.owed| == 2
               && m.gate == EMPTY.(running := true)
  {
    StartedRunRuns(x);
    var senders := [SenderTarget(1, x.senderId, x.chainId)];
    var s0 := Prepared(setup, [], 0, true);
    var k1, k2 := ResultKey(1, Sender, x.senderId, x.chainId), ResultKey(2, Receiver, x.senderId, x.chainId);
    var begun := Execute(StartedRun(x)).value;
    assert OwedResults([1, 2], senders) == {k1, k2} by { OwedPair(senders[0]); }
    hide OwedResults, StartedRun, Execute;
    Extend(StartedRun(x), begun, s0);
    var m := Next(begun, s0);
    Extend(StartedRun(x) + [s0], m, ResultReceived(7, k1));
    Extend(StartedRun(x) + [s0] + [ResultReceived(7, k1)], Next(m, ResultReceived(7, k1)), ResultReceived(7, k2));
  }

  lemma OwedPair(s: SenderTarget)
    requires s.endpoint == 1
    ensures OwedResults([1, 2], [s]) ==
            {ResultKey(1, Sender, s.senderId, s.chainId), ResultKey(2, Receiver, s.senderId, s.chainId)}
  {
    assert [1, 2][..1] == [1];
    assert OwedBy(1, [s]) == {OwedKey(1, s)} && OwedBy(2, [s]) == {OwedKey(2, s)};
    assert OwedResults([1], [s]) == OwedBy(1, [s]);
  }
}
