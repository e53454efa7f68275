/** The gate in front of a round: what a preparation sends, which acknowledgements must have arrived before the round
    starts, and which results end it. */
module RoundGate {
  import opened Bytes
  import opened Arithmetic
  import KeyChain
  import Authority

  datatype Role = Sender | Receiver

  /** One result of a round: who reported, in which role, about which sender and chain. */
  datatype ResultKey = ResultKey(endpoint: nat, role: Role, senderId: nat, chainId: nat)

  datatype SenderTarget = SenderTarget(endpoint: nat, senderId: nat, chainId: nat)

  datatype Gate = Gate(
    roundId: Option<nat>, participants: seq<nat>, senders: seq<SenderTarget>, length: nat,
    pending: set<nat>, rejected: bool, ready: bool,
    faultPending: set<nat>, faultConfigured: bool, faultRejected: bool, faultReady: bool,
    running: bool, expected: nat, received: set<ResultKey>)

  const EMPTY := Gate(None, [], [], 0, {}, false, false, {}, false, false, false, false, 0, {})

  /** What the user asks for: the connected nodes, the selected senders, the interval length, and whether the round
      parameters are accepted. */
  datatype Setup = Setup(roundId: nat, participants: seq<nat>, endpoints: seq<nat>, length: nat,
                         parametersAccepted: bool)

  // ----- What a preparation sends -----

  predicate NoRepeats(s: seq<nat>) {
    forall i, j :: 0 <= i < j < |s| ==> s[i] != s[j]
  }

  /** A sender must be selected and two nodes connected. */
  predicate Acceptable(u: Setup) {
    u.endpoints != [] && |u.participants| >= 2 && u.parametersAccepted
  }

  /** Whether the first n selected senders are connected, which is checked one by one while material is issued. */
  predicate Connected(u: Setup, n: nat)
    requires n <= |u.endpoints|
  {
    forall i :: 0 <= i < n ==> u.endpoints[i] in u.participants
  }

  function Targets(endpoints: seq<nat>, materials: seq<Authority.Material>): (t: seq<SenderTarget>)
    requires |endpoints| == |materials|
    ensures |t| == |endpoints|
    ensures forall i :: 0 <= i < |t| ==> t[i] == SenderTarget(endpoints[i], materials[i].senderId, materials[i].chainId)
  {
    seq(|endpoints|, i requires 0 <= i < |endpoints| =>
      SenderTarget(endpoints[i], materials[i].senderId, materials[i].chainId))
  }

  /** The receiver contexts that are sent to a node: one for each sender hosted elsewhere. */
  function ContextCount(p: nat, senders: seq<SenderTarget>): nat {
    if senders == [] then 0
    else ContextCount(p, senders[..|senders| - 1]) + if senders[|senders| - 1].endpoint == p then 0 else 1
  }

  function SumContexts(participants: seq<nat>, senders: seq<SenderTarget>): nat {
    if participants == [] then 0
    else SumContexts(participants[..|participants| - 1], senders)
         + ContextCount(participants[|participants| - 1], senders)
  }

  /** The participants that are sent receiver contexts at all. */
  function Listening(participants: seq<nat>, senders: seq<SenderTarget>): nat {
    if participants == [] then 0
    else Listening(participants[..|participants| - 1], senders) +
         if ContextCount(participants[|participants| - 1], senders) > 0 then 1 else 0
  }

  /** A configuration and a payload for each sender, and one list of contexts for each listening participant. */
  function RequestCount(participants: seq<nat>, senders: seq<SenderTarget>): nat {
    2 * |senders| + Listening(participants, senders)
  }

  /** Consecutive request numbers. */
  function Requests(base: nat, n: nat): (r: set<nat>)
    ensures forall q :: q in r <==> base <= q < base + n
  {
    if n == 0 then {} else Requests(base, n - 1) + {base + n - 1}
  }

  // ----- Transitions -----

  /** A preparation whose nodes are chosen and whose material is not issued yet. */
  function Selected(u: Setup): Gate {
    EMPTY.(roundId := Some(u.roundId), participants := u.participants, length := u.length)
  }

  /** A preparation that is attempted while a round runs only clears what the round needs. Otherwise it sends its
      requests one after another, and anything that goes wrong resets everything. */
  function Prepare(g: Gate, u: Setup, materials: seq<Authority.Material>, base: nat, sent: bool): Gate {
    if g.running then EMPTY.(running := true)
    else if !Acceptable(u) || !Connected(u, |u.endpoints|) || |materials| != |u.endpoints| || !sent then EMPTY
    else
      var senders := Targets(u.endpoints, materials);
      Selected(u).(senders := senders, pending := Requests(base, RequestCount(u.participants, senders)),
                   expected := |senders| * |u.participants|)
  }

  function ConfigurationAck(g: Gate, request: nat, accepted: bool): Gate {
    if request !in g.pending then g
    else
      var left := g.pending - {request};
      if !accepted then g.(pending := left, rejected := true)
      else g.(pending := left, ready := g.ready || (left == {} && !g.rejected))
  }

  predicate MayConfigureFault(g: Gate, target: nat) {
    g.ready && !g.running && target < |g.senders| && g.faultPending == {}
  }

  function ConfigureFault(g: Gate, target: nat, request: nat, sent: bool): Gate {
    if !MayConfigureFault(g, target) then g
    else
      var asked := g.(faultConfigured := true, faultRejected := false, faultReady := false);
      if sent then asked.(faultPending := {request}) else asked.(faultRejected := true)
  }

  function FaultAck(g: Gate, request: nat, accepted: bool): Gate {
    if request !in g.faultPending then g
    else
      var left := g.faultPending - {request};
      if !accepted then g.(faultPending := left, faultRejected := true, faultReady := false)
      else g.(faultPending := left, faultReady := g.faultReady || left == {})
  }

  /** Losing a participant while answers are outstanding cancels the preparation. */
  function NodesChanged(g: Gate, connected: set<nat>): Gate {
    if (g.pending == {} && g.faultPending == {}) || (forall p :: p in g.participants ==> p in connected) then g
    else g.(pending := {}, faultPending := {}, rejected := true, ready := false, faultRejected := true,
            faultReady := false)
  }

  /** The participants that a broadcast command reaches; it succeeds when that is all of them. */
  function Told(g: Gate, reachable: set<nat>): set<nat> {
    set p | p in g.participants && p in reachable
  }

  predicate AllReached(g: Gate, reachable: set<nat>) {
    forall p :: p in g.participants ==> p in reachable
  }

  predicate MayStart(g: Gate, at: nat, now: nat) {
    g.ready && !g.running && g.faultPending == {} && !g.faultRejected && (g.faultConfigured ==> g.faultReady)
      && at > now + 100
  }

  function Start(g: Gate, at: nat, now: nat, reachable: set<nat>, newId: nat): Gate {
    if !MayStart(g, at, now) then g
    else g.(roundId := if g.roundId == None then Some(newId) else g.roundId, received := {},
            running := AllReached(g, reachable))
  }

  function Stop(g: Gate, reachable: set<nat>): Gate {
    g.(running := g.running && !AllReached(g, reachable))
  }

  /** Only results of the current round are counted, each once. */
  function Report(g: Gate, round: nat, key: ResultKey): Gate {
    if g.roundId != Some(round) then g
    else
      var received := g.received + {key};
      g.(received := received, running := g.running && |received| < g.expected)
  }

  // ----- The controller -----

  class Controller {
    var roundId: Option<nat>
    var participants: seq<nat>
    var senders: seq<SenderTarget>
    var length: nat
    var pending: set<nat>
    var rejected: bool
    var ready: bool
    var faultPending: set<nat>
    var faultConfigured: bool
    var faultRejected: bool
    var faultReady: bool
    var running: bool
    var expected: nat
    var received: set<ResultKey>

    function State(): Gate
      reads this
    {
      Gate(roundId, participants, senders, length, pending, rejected, ready,
           faultPending, faultConfigured, faultRejected, faultReady, running, expected, received)
    }

    constructor ()
      ensures State() == EMPTY
    {
      roundId, participants, senders, length := None, [], [], 0;
      pending, rejected, ready, faultPending, faultConfigured := {}, false, false, {}, false;
      faultRejected, faultReady, running, expected, received := false, false, false, 0, {};
    }

    method ResetPreparedRound()
      modifies this
      ensures State() == EMPTY.(running := old(running))
    {
      roundId, participants, senders, length, expected, received := None, [], [], 0, 0, {};
      ForgetAnswers();
    }

    /** Nothing is asked, answered or planned any more. */
    method ForgetAnswers()
      modifies `pending, `rejected, `ready, `faultPending, `faultConfigured, `faultRejected, `faultReady
      ensures pending == faultPending == {} && !rejected && !ready && !faultConfigured && !faultRejected && !faultReady
    {
      pending, rejected, ready, faultPending, faultConfigured := {}, false, false, {}, false;
      faultRejected, faultReady := false, false;
    }

    /** Issues material for every selected sender, then sends its requests one after another; `reachable` are the
        requests whose send succeeds. */
    method PrepareRound(u: Setup, authority: Authority.CertificateAuthority, hash: KeyChain.Hash,
                        random: nat -> Authority.RandomSource, nameOf: nat -> nat, intervals: nat,
                        base: nat, reachable: set<nat>)
      returns (ok: bool, materials: seq<Authority.Material>, ghost sent: bool)
      requires authority.Valid() && NoRepeats(u.participants)
      modifies this, authority
      ensures authority.Valid() && authority.issued == old(authority.issued) + materials
      ensures |materials| <= |u.endpoints| && Connected(u, |materials|)
      ensures old(running) || !Acceptable(u) ==> materials == []
      ensures State() == Prepare(old(State()), u, materials, base, sent)
      ensures !old(running) && Acceptable(u) && |materials| == |u.endpoints| ==>
                (sent <==> Requests(base, RequestCount(u.participants, Targets(u.endpoints, materials))) <= reachable)
      ensures ok <==> !old(running) && Acceptable(u) && |materials| == |u.endpoints| && sent
    {
      materials, sent := [], false;
      assert running == State().running;
      hide Controller.State, Acceptable, Connected, Requests, RequestCount, Authority.CertificateAuthority.Valid;
      var busy := running;
      ResetPreparedRound();
      if busy { return false, [], false; }
      var acceptable := SelectNodes(u);
      if !acceptable {
        ResetPreparedRound();
        return false, [], false;
      }
      var issued;
      issued, materials := IssueMaterials(u, authority, hash, random, nameOf, intervals);
      if !issued {
        ResetPreparedRound();
        return false, materials, false;
      }
      ok := SendRequests(u, materials, base, reachable);
      sent := ok;
      if !ok { ResetPreparedRound(); }
    }

    /** The new round's identifier, its nodes and, once the request is acceptable, its interval length. */
    method SelectNodes(u: Setup) returns (ok: bool)
      requires State() == EMPTY
      modifies this
      ensures (ok <==> Acceptable(u)) && State().running == false && (ok ==> State() == Selected(u))
    {
      roundId, participants := Some(u.roundId), u.participants;
      ok := Acceptable(u);
      if ok { length := u.length; }
    }

    /** One material after another. It stops at the first sender that is not connected or gets no material, and leaves
        those issued so far used up. */
    method IssueMaterials(u: Setup, authority: Authority.CertificateAuthority, hash: KeyChain.Hash,
                          random: nat -> Authority.RandomSource, nameOf: nat -> nat, intervals: nat)
      returns (ok: bool, materials: seq<Authority.Material>)
      requires authority.Valid() && State() == Selected(u)
      modifies `senders, authority
      ensures authority.Valid() && authority.issued == old(authority.issued) + materials
      ensures |materials| <= |u.endpoints| && (ok <==> |materials| == |u.endpoints|)
      ensures Connected(u, |materials|)
      ensures forall i :: 0 <= i < |materials| ==> materials[i].senderId == nameOf(u.endpoints[i])
      ensures State().running == false && (ok ==> State() == Selected(u).(senders := Targets(u.endpoints, materials)))
    {
      var endpoints := u.endpoints;
      hide Authority.CertificateAuthority.Valid, Authority.Unused, Authority.Candidate;
      materials := [];
      for i := 0 to |endpoints|
        invariant authority.Valid() && authority.issued == old(authority.issued) + materials
        invariant |materials| == i && Connected(u, i) && senders == Targets(endpoints[..i], materials)
        invariant forall j :: 0 <= j < i ==> materials[j].senderId == nameOf(endpoints[j])
        invariant State() == Selected(u).(senders := senders)
      {
        if endpoints[i] !in u.participants { return false, materials; }
        var result := authority.IssueSenderMaterial(hash, random(i), nameOf(endpoints[i]), intervals);
        if result.Err? { return false, materials; }
        materials := materials + [result.value];
        senders := senders + [SenderTarget(endpoints[i], result.value.senderId, result.value.chainId)];
        assert senders == Targets(endpoints[..i + 1], materials);
      }
      assert endpoints[..|endpoints|] == endpoints;
      ok := true;
    }

    /** Sends every request and counts the results that will be owed; stops at the first send that fails. */
    method SendRequests(u: Setup, materials: seq<Authority.Material>, base: nat, reachable: set<nat>) returns (ok: bool)
      requires NoRepeats(u.participants) && Acceptable(u) && |materials| == |u.endpoints| && Connected(u, |materials|)
      requires State() == Selected(u).(senders := Targets(u.endpoints, materials))
      modifies `pending, `expected
      ensures ok <==> Requests(base, RequestCount(u.participants, Targets(u.endpoints, materials))) <= reachable
      ensures State().running == false && (ok ==> State() == Prepare(EMPTY, u, materials, base, true))
    {
      ok := SendConfigurations(base, reachable);
    }

    method SendConfigurations(base: nat, reachable: set<nat>) returns (ok: bool)
      requires pending == {} && expected == 0 && NoRepeats(participants)
      requires forall s :: s in senders ==> s.endpoint in participants
      modifies `pending, `expected
      ensures var n := RequestCount(participants, senders);
              && (ok <==> Requests(base, n) <= reachable)
              && (ok ==> pending == Requests(base, n) && expected == |senders| * |participants|)
    {
      hide ContextCount, SumContexts, Listening;
      for i := 0 to |senders|
        invariant pending == Requests(base, 2 * i) && pending <= reachable && expected == 0
      {
        ok := SendRequired(base, 2 * i, reachable);
        if !ok { Unsent(base, 2 * i, reachable, RequestCount(participants, senders)); return; }
        ok := SendRequired(base, 2 * i + 1, reachable);
        if !ok { Unsent(base, 2 * i + 1, reachable, RequestCount(participants, senders)); return; }
      }
      var n := 2 * |senders|;
      SumEmpty(senders);
      for i := 0 to |participants|
        invariant n == 2 * |senders| + Listening(participants[..i], senders)
        invariant pending == Requests(base, n) && pending <= reachable
        invariant expected == SumContexts(participants[..i], senders)
      {
        CountOneMore(participants, senders, i);
        var contexts := ContextsFor(participants[i]);
        if contexts != [] {
          ok := SendRequired(base, n, reachable);
          if !ok { Unsent(base, n, reachable, RequestCount(participants, senders)); return; }
          n := n + 1;
          expected := expected + |contexts|;
        }
      }
      assert participants[..|participants|] == participants;
      ExpectedTotal(participants, senders);
      expected := expected + |senders|;
      ok := true;
    }

    method SendRequired(base: nat, offset: nat, reachable: set<nat>) returns (ok: bool)
      requires pending == Requests(base, offset)
      modifies `pending
      ensures ok <==> base + offset in reachable
      ensures ok ==> pending == Requests(base, offset + 1)
    {
      pending := pending + {base + offset};
      ok := base + offset in reachable;
      if !ok { pending := pending - {base + offset}; }
    }

    method ContextsFor(p: nat) returns (contexts: seq<SenderTarget>)
      ensures |contexts| == ContextCount(p, senders)
    {
      contexts := [];
      for j := 0 to |senders|
        invariant |contexts| == ContextCount(p, senders[..j])
      {
        assert senders[..j + 1][..j] == senders[..j];
        if senders[j].endpoint != p { contexts := contexts + [senders[j]]; }
      }
      assert senders[..|senders|] == senders;
    }

    method ProcessConfigurationAck(request: nat, accepted: bool)
      modifies this
      ensures State() == ConfigurationAck(old(State()), request, accepted)
    {
      if request !in pending { return; }
      pending := pending - {request};
      if !accepted {
        rejected := true;
      } else if pending == {} && !rejected {
        ready := true;
      }
    }

    method ConfigureFaultPlan(target: nat, request: nat, sent: bool) returns (ok: bool)
      modifies this
      ensures State() == ConfigureFault(old(State()), target, request, sent)
      ensures ok <==> old(MayConfigureFault(State(), target)) && sent
    {
      if !ready || running || target >= |senders| || faultPending != {} { return false; }
      faultPending := faultPending + {request};
      faultConfigured, faultRejected, faultReady := true, false, false;
      if !sent {
        faultPending := faultPending - {request};
        faultRejected := true;
        return false;
      }
      ok := true;
    }

    method ProcessFaultAck(request: nat, accepted: bool)
      modifies this
      ensures State() == FaultAck(old(State()), request, accepted)
    {
      if request !in faultPending { return; }
      faultPending := faultPending - {request};
      if !accepted {
        faultRejected, faultReady := true, false;
      } else if faultPending == {} {
        faultReady := true;
      }
    }

    method HandleNodesChanged(connected: set<nat>)
      modifies this
      ensures State() == NodesChanged(old(State()), connected)
    {
      if pending == {} && faultPending == {} { return; }
      for i := 0 to |participants|
        invariant State() == old(State()) && forall p :: p in participants[..i] ==> p in connected
      {
        if participants[i] !in connected {
          pending, faultPending := {}, {};
          rejected, ready, faultRejected, faultReady := true, false, true, false;
          return;
        }
      }
    }

    /** Tries every participant, and reports whether all were reached. */
    method BroadcastCommand(reachable: set<nat>) returns (ok: bool, told: set<nat>)
      ensures told == Told(State(), reachable) && (ok <==> AllReached(State(), reachable))
    {
      told, ok := {}, true;
      for i := 0 to |participants|
        invariant told == set p | p in participants[..i] && p in reachable
        invariant ok <==> forall p :: p in participants[..i] ==> p in reachable
      {
        assert participants[..i + 1] == participants[..i] + [participants[i]];
        if participants[i] in reachable { told := told + {participants[i]}; } else { ok := false; }
      }
      assert participants[..|participants|] == participants;
    }

    method StartRoundAt(at: nat, now: nat, reachable: set<nat>, newId: nat) returns (ok: bool)
      modifies this
      ensures State() == Start(old(State()), at, now, reachable, newId)
      ensures ok <==> old(MayStart(State(), at, now)) && AllReached(State(), reachable)
    {
      if !ready || running { return false; }
      if faultPending != {} || faultRejected || (faultConfigured && !faultReady) { return false; }
      if at <= now + 100 { return false; }
      if roundId == None { roundId := Some(newId); }
      received := {};
      var told;
      ok, told := BroadcastCommand(reachable);
      if ok { running := true; }
    }

    method StopRound(reachable: set<nat>) returns (ok: bool, told: set<nat>)
      modifies this
      ensures State() == Stop(old(State()), reachable)
      ensures ok <==> old(running) && AllReached(State(), reachable)
      ensures told == if old(running) then Told(State(), reachable) else {}
    {
      if !running { return false, {}; }
      ok, told := BroadcastCommand(reachable);
      if ok { running := false; }
    }

    method ProcessResult(round: nat, key: ResultKey)
      modifies this
      ensures State() == Report(old(State()), round, key)
    {
      if roundId != Some(round) { return; }
      received := received + {key};
      if running && |received| >= expected { running := false; }
    }
  }

  // ----- Counting what is sent -----

  /** A request that could not be sent is one of those that had to be. */
  lemma Unsent(base: nat, offset: nat, reachable: set<nat>, n: nat)
    requires offset < n && base + offset !in reachable
    ensures !(Requests(base, n) <= reachable)
  {
    assert base + offset in Requests(base, n);
  }

  lemma SumEmpty(senders: seq<SenderTarget>)
    ensures SumContexts([], senders) == 0 && Listening([], senders) == 0
  {
  }

  lemma CountOneMore(participants: seq<nat>, senders: seq<SenderTarget>, i: nat)
    requires i < |participants|
    ensures SumContexts(participants[..i + 1], senders) ==
              SumContexts(participants[..i], senders) + ContextCount(participants[i], senders)
    ensures Listening(participants[..i + 1], senders) ==
              Listening(participants[..i], senders) + if ContextCount(participants[i], senders) > 0 then 1 else 0
    ensures Listening(participants[..i + 1], senders) <= Listening(participants, senders)
  {
    assert participants[..i + 1][..i] == participants[..i];
    ListeningGrows(participants, senders, i + 1);
  }

  lemma {:induction false} ListeningGrows(participants: seq<nat>, senders: seq<SenderTarget>, i: nat)
    requires i <= |participants|
    ensures Listening(participants[..i], senders) <= Listening(participants, senders)
  {
    if i == |participants| {
      assert participants[..i] == participants;
    } else {
      var n := |participants| - 1;
      ListeningGrows(participants[..n], senders, i);
      assert participants[..n][..i] == participants[..i];
    }
  }

  /** How many of the participants host a given endpoint. */
  function Hosts(participants: seq<nat>, endpoint: nat): nat {
    if participants == [] then 0
    else Hosts(participants[..|participants| - 1], endpoint) +
         if participants[|participants| - 1] == endpoint then 1 else 0
  }

  lemma {:induction false} HostsAtMostOnce(participants: seq<nat>, endpoint: nat)
    requires NoRepeats(participants)
    ensures Hosts(participants, endpoint) == if endpoint in participants then 1 else 0
  {
    if participants != [] {
      var n := |participants| - 1;
      HostsAtMostOnce(participants[..n], endpoint);
      assert participants == participants[..n] + [participants[n]];
    }
  }

  lemma {:induction false} SumContextsSplit(participants: seq<nat>, senders: seq<SenderTarget>)
    requires senders != []
    ensures var n := |senders| - 1;
            SumContexts(participants, senders) ==
              SumContexts(participants, senders[..n]) + |participants| - Hosts(participants, senders[n].endpoint)
  {
    if participants != [] { SumContextsSplit(participants[..|participants| - 1], senders); }
  }

  lemma {:induction false} NoContexts(participants: seq<nat>)
    ensures SumContexts(participants, []) == 0
  {
    if participants != [] { NoContexts(participants[..|participants| - 1]); }
  }

  /** With each sender hosted by exactly one participant, the contexts sent and the senders themselves add up to one
      result for each sender and participant. */
  lemma {:induction false} ExpectedTotal(participants: seq<nat>, senders: seq<SenderTarget>)
    requires NoRepeats(participants)
    requires forall s :: s in senders ==> s.endpoint in participants
    ensures SumContexts(participants, senders) + |senders| == |senders| * |participants|
  {
    if senders == [] {
      NoContexts(participants);
    } else {
      var n: nat := |senders| - 1;
      ExpectedTotal(participants, senders[..n]);
      SumContextsSplit(participants, senders);
      HostsAtMostOnce(participants, senders[n].endpoint);
      AddOneProduct(n, |participants|);
    }
  }
}
