/** The node agent's monitor broadcast: two bounded queues filled by many threads, one broadcaster that alternates
    between them and merges metrics into batches. Runs without a stop of the server. */
module MonitorQueues {
  import opened Bytes

  const MAX_EVENTS := 4096
  const MAX_METRICS := 8192
  const BATCH_SIZE := 64

  datatype Kind = PacketEvent | FailureEvent | OtherEvent

  datatype Observation = Observation(kind: Kind, id: nat)

  /** The fields behind the queue lock, with the broadcaster's alternation flag. */
  datatype Queues = Queues(events: seq<Observation>, metrics: seq<nat>, dropped: nat, preferMetrics: bool)

  // ----- Enqueueing -----

  /** The position of the first plain packet event, or the length. */
  function FirstPacket(events: seq<Observation>): (i: nat)
    ensures i <= |events| && (i < |events| ==> events[i].kind == PacketEvent)
    ensures forall j :: 0 <= j < i ==> events[j].kind != PacketEvent
  {
    if events == [] || events[0].kind == PacketEvent then 0
    else
      var i := FirstPacket(events[1..]);
      assert forall j :: 0 < j < i + 1 ==> events[j] == events[1..][j - 1];
      assert i < |events[1..]| ==> events[i + 1] == events[1..][i];
      1 + i
  }

  function OfferObservation(q: Queues, o: Observation): Queues {
    if |q.events| < MAX_EVENTS then q.(events := q.events + [o])
    else
      var i := FirstPacket(q.events);
      if o.kind == FailureEvent && i < |q.events|
      then q.(events := Without(q.events, i) + [o], dropped := q.dropped + 1)
      else q.(dropped := q.dropped + 1)
  }

  function OfferMetric(q: Queues, m: nat): Queues {
    if |q.metrics| < MAX_METRICS then q.(metrics := q.metrics + [m]) else q.(dropped := q.dropped + 1)
  }

  // ----- Broadcasting -----

  /** What the broadcaster does once something is queued. */
  datatype Choice = SendObservation | SendBatch | WaitForMore

  function Choose(q: Queues): Choice {
    if q.metrics != [] && (q.events == [] || q.preferMetrics)
    then if |q.metrics| < BATCH_SIZE && q.events == [] then WaitForMore else SendBatch
    else SendObservation
  }

  /** The flag flips whenever both kinds are waiting. */
  function Alternated(q: Queues): Queues {
    q.(preferMetrics := if q.events != [] && q.metrics != [] then !q.preferMetrics else q.preferMetrics)
  }

  function BatchLength(q: Queues): (n: nat)
    ensures n <= |q.metrics| && n <= BATCH_SIZE && (n == |q.metrics| || n == BATCH_SIZE)
  {
    if |q.metrics| < BATCH_SIZE then |q.metrics| else BATCH_SIZE
  }

  /** After the merging wait, observations that arrived meanwhile go next. */
  function AfterWait(q: Queues): Queues {
    if q.events != [] then q.(preferMetrics := false) else q
  }

  /** What one round of the loop sends. */
  datatype Broadcast = One(o: Observation) | Batch(metrics: seq<nat>) | Nothing

  function WithoutBatch(q: Queues): Queues {
    q.(metrics := q.metrics[BatchLength(q)..])
  }

  /** One round of the loop, up to the merging wait if there is one. */
  function AfterRound(q: Queues): Queues
    requires q.events != [] || q.metrics != []
  {
    match Choose(q)
    case SendObservation => Alternated(q).(events := q.events[1..])
    case SendBatch => WithoutBatch(Alternated(q))
    case WaitForMore => Alternated(q)
  }

  function Message(q: Queues): Broadcast
    requires q.events != [] || q.metrics != []
  {
    match Choose(q)
    case SendObservation => One(q.events[0])
    case SendBatch => Batch(q.metrics[..BatchLength(q)])
    case WaitForMore => Nothing
  }

  class MonitorQueue {
    var events: seq<Observation>
    var metrics: seq<nat>
    var dropped: nat
    var preferMetrics: bool

    function State(): Queues
      reads this
    {
      Queues(events, metrics, dropped, preferMetrics)
    }

    ghost predicate Valid()
      reads this
    {
      |events| <= MAX_EVENTS && |metrics| <= MAX_METRICS
    }

    constructor ()
      ensures Valid() && State() == Queues([], [], 0, true)
    {
      events, metrics, dropped, preferMetrics := [], [], 0, true;
    }

    method EnqueueObservation(o: Observation)
      requires Valid()
      modifies this
      ensures Valid() && State() == OfferObservation(old(State()), o)
    {
      if |events| >= MAX_EVENTS {
        if o.kind == FailureEvent {
          var i := 0;
          while i < |events| && events[i].kind != PacketEvent
            invariant i <= FirstPacket(events)
          {
            i := i + 1;
          }
          if i < |events| {
            events := events[..i] + events[i + 1..];
            events := events + [o];
            dropped := dropped + 1;
            return;
          }
        }
        dropped := dropped + 1;
        return;
      }
      events := events + [o];
    }

    method EnqueueMetric(m: nat)
      requires Valid()
      modifies this
      ensures Valid() && State() == OfferMetric(old(State()), m)
    {
      if |metrics| >= MAX_METRICS {
        dropped := dropped + 1;
        return;
      }
      metrics := metrics + [m];
    }

    /** The decision of one round of the broadcast loop; only the alternation flag changes. */
    method SelectNext() returns (choice: Choice)
      requires Valid() && (events != [] || metrics != [])
      modifies `preferMetrics
      ensures choice == Choose(old(State())) && State() == Alternated(old(State()))
    {
      var hasMetrics, hasObservations := metrics != [], events != [];
      var sendBatch := hasMetrics && (!hasObservations || preferMetrics);
      if hasMetrics && hasObservations { preferMetrics := !preferMetrics; }
      if !sendBatch { return SendObservation; }
      choice := if |metrics| < BATCH_SIZE && events == [] then WaitForMore else SendBatch;
    }

    method BroadcastNext() returns (sent: Broadcast)
      requires Valid() && (events != [] || metrics != [])
      modifies this
      ensures Valid() && State() == AfterRound(old(State())) && sent == Message(old(State()))
    {
      var choice := SelectNext();
      if choice == SendObservation {
        var o := TakeObservation();
        sent := One(o);
      } else if choice == SendBatch {
        var batch := TakeBatch();
        sent := Batch(batch);
      } else {
        sent := Nothing;
      }
    }

    /** The rest of a round that waited. */
    method FinishWait() returns (batch: seq<nat>)
      requires Valid()
      modifies this
      ensures Valid() && State() == WithoutBatch(AfterWait(old(State())))
      ensures batch == old(metrics)[..BatchLength(old(State()))]
    {
      if events != [] { preferMetrics := false; }
      batch := TakeBatch();
    }

    method TakeBatch() returns (batch: seq<nat>)
      requires Valid()
      modifies `metrics
      ensures Valid() && batch == old(metrics)[..BatchLength(old(State()))]
      ensures metrics == old(metrics)[BatchLength(old(State()))..]
    {
      var size := if |metrics| < BATCH_SIZE then |metrics| else BATCH_SIZE;
      batch := [];
      for i := 0 to size
        invariant batch == old(metrics)[..i] && metrics == old(metrics)[i..]
      {
        batch := batch + [metrics[0]];
        metrics := metrics[1..];
      }
    }

    method TakeObservation() returns (o: Observation)
      requires Valid() && events != []
      modifies `events
      ensures Valid() && o == old(events)[0] && events == old(events)[1..]
    {
      o := events[0];
      events := events[1..];
    }
  }

  // ----- The machine -----

  /** `waiting` is the merging wait, during which producers may run. The rest is history: everything offered and sent,
      the failures that were turned away, and whether the last selection passed over a waiting kind. */
  datatype Machine = Machine(
    queues: Queues, waiting: bool,
    offered: seq<Observation>, sent: seq<Observation>,
    offeredMetrics: nat, acceptedMetrics: seq<nat>, batches: seq<seq<nat>>,
    lostFailures: nat,
    passedEvents: bool, passedMetrics: bool)

  const INITIAL := Machine(Queues([], [], 0, true), false, [], [], 0, [], [], 0, false, false)

  datatype Step = Offer(o: Observation) | OfferMetricRecord(m: nat) | Select | EndWait

  predicate Enabled(m: Machine, s: Step) {
    match s
    case Offer(_) => true
    case OfferMetricRecord(_) => true
    case Select => !m.waiting && (m.queues.events != [] || m.queues.metrics != [])
    case EndWait => m.waiting
  }

  function SendBatchFrom(m: Machine, q: Queues): Machine {
    var n := BatchLength(q);
    m.(queues := WithoutBatch(q), batches := m.batches + [q.metrics[..n]], waiting := false,
       passedEvents := q.events != [], passedMetrics := false)
  }

  function SelectStep(m: Machine): Machine
    requires m.queues.events != [] || m.queues.metrics != []
  {
    match Message(m.queues)
    case One(o) =>
      m.(queues := AfterRound(m.queues), sent := m.sent + [o], passedMetrics := m.queues.metrics != [],
        passedEvents := false)
    case Batch(_) => SendBatchFrom(m, Alternated(m.queues))
    case Nothing => m.(queues := AfterRound(m.queues), waiting := true, passedEvents := false, passedMetrics := false)
  }

  function OfferStep(m: Machine, o: Observation): Machine {
    m.(queues := OfferObservation(m.queues, o), offered := m.offered + [o],
       lostFailures := if o.kind == FailureEvent && |m.queues.events| >= MAX_EVENTS
         && FirstPacket(m.queues.events) == |m.queues.events|
                       then m.lostFailures + 1 else m.lostFailures)
  }

  function Next(m: Machine, s: Step): Machine
    requires Enabled(m, s)
  {
    match s
    case Offer(o) => OfferStep(m, o)
    case OfferMetricRecord(r) =>
      m.(queues := OfferMetric(m.queues, r), offeredMetrics := m.offeredMetrics + 1,
         acceptedMetrics := if |m.queues.metrics| < MAX_METRICS then m.acceptedMetrics + [r] else m.acceptedMetrics)
    case Select => SelectStep(m)
    case EndWait => SendBatchFrom(m, AfterWait(m.queues))
  }

  // ----- Invariants -----

  /** The failure events of a sequence, in order. */
  function Failures(s: seq<Observation>): seq<Observation> {
    if s == [] then []
    else Failures(s[..|s| - 1]) + if s[|s| - 1].kind == FailureEvent then [s[|s| - 1]] else []
  }

  /** `part` can be found inside `whole` in the same order; both are read from the end. */
  predicate Subsequence(part: seq<Observation>, whole: seq<Observation>)
    decreases |whole|
  {
    if part == [] then true
    else if whole == [] then false
    else
      var p, w := |part| - 1, |whole| - 1;
      (part[p] == whole[w] && Subsequence(part[..p], whole[..w])) || Subsequence(part, whole[..w])
  }

  function Flatten(batches: seq<seq<nat>>): seq<nat> {
    if batches == [] then [] else Flatten(batches[..|batches| - 1]) + batches[|batches| - 1]
  }

  ghost predicate Inv(m: Machine) {
    && |m.queues.events| <= MAX_EVENTS && |m.queues.metrics| <= MAX_METRICS
    && (m.waiting ==> m.queues.metrics != [])
    && |m.offered| + m.offeredMetrics ==
       |m.sent| + |m.queues.events| + |Flatten(m.batches)| + |m.queues.metrics| + m.queues.dropped
    && m.acceptedMetrics == Flatten(m.batches) + m.queues.metrics
    && (forall i :: 0 <= i < |m.batches| ==> 1 <= |m.batches[i]| <= BATCH_SIZE)
    && Subsequence(m.sent + m.queues.events, m.offered)
    && |Failures(m.sent + m.queues.events)| + m.lostFailures == |Failures(m.offered)|
    && (m.passedEvents && !m.waiting ==> m.queues.events != [] && !m.queues.preferMetrics)
    && (m.passedMetrics && !m.waiting ==> m.queues.metrics != [] && m.queues.preferMetrics)
    && (m.passedEvents || m.passedMetrics ==> !m.waiting)
  }

  lemma SubsequenceAppend(part: seq<Observation>, whole: seq<Observation>, o: Observation)
    requires Subsequence(part, whole)
    ensures Subsequence(part + [o], whole + [o]) && Subsequence(part, whole + [o])
  {
    assert (whole + [o])[..|whole|] == whole && (part + [o])[..|part|] == part;
  }

  lemma {:induction false} SubsequenceRemove(part: seq<Observation>, whole: seq<Observation>, i: nat)
    requires Subsequence(part, whole) && i < |part|
    ensures Subsequence(Without(part, i), whole)
    decreases |whole|
  {
    var p, w := |part| - 1, |whole| - 1;
    if part[p] == whole[w] && Subsequence(part[..p], whole[..w]) {
      assert whole == whole[..w] + [whole[w]];
      if i == p {
        assert Without(part, i) == part[..p];
        SubsequenceAppend(part[..p], whole[..w], whole[w]);
      } else {
        SubsequenceRemove(part[..p], whole[..w], i);
        assert Without(part, i) == Without(part[..p], i) + [part[p]];
        SubsequenceAppend(Without(part[..p], i), whole[..w], whole[w]);
      }
    } else {
      SubsequenceRemove(part, whole[..w], i);
      assert whole == whole[..w] + [whole[w]];
      SubsequenceAppend(Without(part, i), whole[..w], whole[w]);
    }
  }

  lemma FailuresAppend(s: seq<Observation>, o: Observation)
    ensures Failures(s + [o]) == Failures(s) + if o.kind == FailureEvent then [o] else []
  {
    assert (s + [o])[..|s|] == s;
  }

  lemma {:induction false} FailuresRemove(s: seq<Observation>, i: nat)
    requires i < |s| && s[i].kind != FailureEvent
    ensures Failures(Without(s, i)) == Failures(s)
  {
    var n := |s| - 1;
    if i == n {
      assert Without(s, i) == s[..n];
    } else {
      FailuresRemove(s[..n], i);
      assert Without(s, i) == Without(s[..n], i) + [s[n]];
      FailuresAppend(Without(s[..n], i), s[n]);
    }
  }

  /** The clauses of the invariant about observations, for what was sent followed by what is queued. */
  ghost predicate Ordered(all: seq<Observation>, offered: seq<Observation>, lost: nat) {
    Subsequence(all, offered) && |Failures(all)| + lost == |Failures(offered)|
  }

  lemma AcceptedOrdered(all: seq<Observation>, offered: seq<Observation>, lost: nat, o: Observation)
    requires Ordered(all, offered, lost)
    ensures Ordered(all + [o], offered + [o], lost)
    ensures o.kind == FailureEvent ==> Ordered(all, offered + [o], lost + 1)
    ensures o.kind != FailureEvent ==> Ordered(all, offered + [o], lost)
  {
    hide Failures, Subsequence;
    FailuresAppend(offered, o);
    FailuresAppend(all, o);
    SubsequenceAppend(all, offered, o);
  }

  lemma EvictedOrdered(sent: seq<Observation>, events: seq<Observation>, offered: seq<Observation>, lost: nat, i: nat)
    requires Ordered(sent + events, offered, lost) && i < |events| && events[i].kind == PacketEvent
    ensures Ordered(sent + Without(events, i), offered, lost)
  {
    hide Failures, Subsequence;
    var all := sent + events;
    assert Without(all, |sent| + i) == sent + Without(events, i);
    SubsequenceRemove(all, offered, |sent| + i);
    FailuresRemove(all, |sent| + i);
  }

  lemma OfferKeepsOrder(m: Machine, o: Observation)
    requires |m.queues.events| <= MAX_EVENTS && Ordered(m.sent + m.queues.events, m.offered, m.lostFailures)
    ensures var n := OfferStep(m, o); Ordered(n.sent + n.queues.events, n.offered, n.lostFailures)
  {
    hide Ordered, FirstPacket, Without;
    var events := m.queues.events;
    var i := FirstPacket(events);
    AcceptedOrdered(m.sent + events, m.offered, m.lostFailures, o);
    if |events| < MAX_EVENTS {
      assert m.sent + (events + [o]) == m.sent + events + [o];
    } else if o.kind == FailureEvent && i < |events| {
      EvictedOrdered(m.sent, events, m.offered, m.lostFailures, i);
      AcceptedOrdered(m.sent + Without(events, i), m.offered, m.lostFailures, o);
      assert m.sent + (Without(events, i) + [o]) == m.sent + Without(events, i) + [o];
    }
  }

  lemma OfferKeepsInv(m: Machine, o: Observation)
    requires Inv(m)
    ensures Inv(OfferStep(m, o))
  {
    hide Failures, Subsequence, FirstPacket, Flatten;
    OfferKeepsOrder(m, o);
  }

  lemma BatchKeepsInv(m: Machine, q: Queues)
    requires Inv(m) && q.metrics == m.queues.metrics != [] && q.events == m.queues.events
             && q.dropped == m.queues.dropped
    requires q.events != [] ==> !q.preferMetrics
    ensures Inv(SendBatchFrom(m, q))
  {
    hide Failures, Subsequence, Flatten;
    var n := BatchLength(q);
    FlattenAppend(m.batches, q.metrics[..n]);
    assert Flatten(m.batches) + q.metrics[..n] + q.metrics[n..] == Flatten(m.batches) + q.metrics;
  }

  lemma FlattenAppend(batches: seq<seq<nat>>, batch: seq<nat>)
    ensures Flatten(batches + [batch]) == Flatten(batches) + batch
  {
    assert (batches + [batch])[..|batches|] == batches;
  }

  lemma SendKeepsInv(m: Machine)
    requires Inv(m) && !m.waiting && (m.queues.events != [] || m.queues.metrics != [])
             && Choose(m.queues) == SendObservation
    ensures Inv(SelectStep(m))
  {
    hide Failures, Subsequence, Flatten;
    var events := m.queues.events;
    assert m.sent + [events[0]] + events[1..] == m.sent + events;
  }

  lemma NextKeepsInv(m: Machine, s: Step)
    requires Inv(m) && Enabled(m, s)
    ensures Inv(Next(m, s))
  {
    hide Failures, Subsequence, Flatten, FirstPacket;
    match s
    case Offer(o) => OfferKeepsInv(m, o);
    case OfferMetricRecord(r) =>
      assert Flatten(m.batches) + (m.queues.metrics + [r]) == Flatten(m.batches) + m.queues.metrics + [r];
    case Select =>
      if Choose(m.queues) == SendObservation {
        SendKeepsInv(m);
      } else if Choose(m.queues) == SendBatch {
        BatchKeepsInv(m, Alternated(m.queues));
      }
    case EndWait => BatchKeepsInv(m, AfterWait(m.queues));
  }

  ghost function Run(steps: seq<Step>): Option<Machine> {
    if steps == [] then Some(INITIAL)
    else
      var before := Run(steps[..|steps| - 1]);
      var s := steps[|steps| - 1];
      if before.Some? && Enabled(before.value, s) then Some(Next(before.value, s)) else None
  }

  lemma {:induction false} RunKeepsInv(steps: seq<Step>)
    requires Run(steps).Some?
    ensures Inv(Run(steps).value)
  {
    if steps != [] {
      hide Inv, Next, Enabled;
      RunKeepsInv(steps[..|steps| - 1]);
      NextKeepsInv(Run(steps[..|steps| - 1]).value, steps[|steps| - 1]);
    }
  }

  // ----- What every run guarantees -----

  /** Bounded queues, exact accounting, observations in offered order, metrics first-in first-out in batches of 1 to
      64. */
  lemma QueueSafety(steps: seq<Step>)
    requires Run(steps).Some?
    ensures var m := Run(steps).value;
            && |m.queues.events| <= MAX_EVENTS && |m.queues.metrics| <= MAX_METRICS
            && |m.offered| + m.offeredMetrics ==
               |m.sent| + |m.queues.events| + |Flatten(m.batches)| + |m.queues.metrics| + m.queues.dropped
            && Subsequence(m.sent + m.queues.events, m.offered)
            && m.acceptedMetrics == Flatten(m.batches) + m.queues.metrics
            && forall i :: 0 <= i < |m.batches| ==> 1 <= |m.batches[i]| <= BATCH_SIZE
  {
    RunKeepsInv(steps);
    hide Run;
  }

  /** A queued failure is never evicted: every failure offered is sent, still queued, or was turned away at the door
      while the queue was full and held no plain packet event. */
  lemma FailuresKept(steps: seq<Step>)
    requires Run(steps).Some?
    ensures var m := Run(steps).value;
            |Failures(m.sent + m.queues.events)| + m.lostFailures == |Failures(m.offered)|
  {
    RunKeepsInv(steps);
    hide Run;
  }

  /** A failure leaves the queue as it was, turned away, if and only if the queue is full and holds no plain packet
      event. Otherwise it is queued last. */
  lemma FailureTurnedAwayIff(m: Machine, o: Observation)
    requires |m.queues.events| <= MAX_EVENTS && o.kind == FailureEvent
    ensures var before, after := m.queues.events, OfferStep(m, o).queues.events;
            && (after == before <==> |before| == MAX_EVENTS && forall e :: e in before ==> e.kind != PacketEvent)
            && (after != before ==> after != [] && after[|after| - 1] == o && Failures(after) == Failures(before) + [o])
  {
    var events := m.queues.events;
    var i := FirstPacket(events);
    hide Failures, FirstPacket;
    if |events| < MAX_EVENTS {
      FailuresAppend(events, o);
    } else if i < |events| {
      assert events[i] in events;
      FailuresRemove(events, i);
      FailuresAppend(Without(events, i), o);
      assert |Failures(Without(events, i) + [o])| == |Failures(events)| + 1;
    }
  }

  /** With room any observation is queued last and nothing is dropped. A full queue drops the observation, or, for a
      failure, the first plain packet event in favour of it; either way exactly one is counted as dropped. */
  lemma OfferExactly(m: Machine, o: Observation)
    requires |m.queues.events| <= 4096
    ensures var q, after := m.queues, OfferStep(m, o).queues;
            && after.metrics == q.metrics && after.preferMetrics == q.preferMetrics
            && (|q.events| < 4096 ==> after.events == q.events + [o] && after.dropped == q.dropped)
            && (|q.events| == 4096 ==> after.dropped == q.dropped + 1)
            && (|q.events| == 4096 && o.kind != FailureEvent ==> after.events == q.events)
            && (|q.events| == 4096 && o.kind == FailureEvent ==>
                  forall i :: 0 <= i < 4096 && IsFirstPacket(q.events, i) ==>
                    after.events == q.events[..i] + q.events[i + 1..] + [o])
  {
  }

  ghost predicate IsFirstPacket(events: seq<Observation>, i: nat)
    requires i < |events|
  {
    events[i].kind == PacketEvent && forall j :: 0 <= j < i ==> events[j].kind != PacketEvent
  }

  /** The same for a metric record: the last of fewer than 8192, or dropped and counted. */
  lemma OfferMetricExactly(m: Machine, record: nat)
    requires |m.queues.metrics| <= 8192
    ensures var q, after := m.queues, Next(m, OfferMetricRecord(record)).queues;
            && after.events == q.events && after.preferMetrics == q.preferMetrics
            && (|q.metrics| < 8192 ==> after.metrics == q.metrics + [record] && after.dropped == q.dropped)
            && (|q.metrics| == 8192 ==> after.metrics == q.metrics && after.dropped == q.dropped + 1)
  {
  }

  /** What a selection sends in every run: the oldest observation, or up to 64 of the oldest metrics, the observation
      first when metrics had their turn. Only a short batch without a waiting observation waits for more. */
  lemma SelectsExactly(steps: seq<Step>)
    requires Run(steps).Some? && Enabled(Run(steps).value, Select)
    ensures var m, n := Run(steps).value, Next(Run(steps).value, Select);
            var q := m.queues;
            && (n.waiting <==> q.events == [] && |q.metrics| < 64)
            && (n.waiting ==> n.sent == m.sent && n.batches == m.batches && n.queues.metrics == q.metrics
                              && n.queues.events == q.events)
            && n.queues.dropped == q.dropped
            && (n.sent != m.sent <==> q.events != [] && (q.metrics == [] || !q.preferMetrics))
            && (n.sent != m.sent ==>
                  n.sent == m.sent + [q.events[0]] && n.queues.events == q.events[1..] && n.queues.metrics == q.metrics
                  && n.batches == m.batches)
            && (n.sent == m.sent && !n.waiting ==>
                  var size := if |q.metrics| < 64 then |q.metrics| else 64;
                  && n.batches == m.batches + [q.metrics[..size]]
                  && n.queues.metrics == q.metrics[size..] && n.queues.events == q.events)
            && (n.queues.preferMetrics != q.preferMetrics <==> q.events != [] && q.metrics != [])
  {
    RunKeepsInv(steps);
    hide Run, Inv;
    var m, n := Run(steps).value, Next(Run(steps).value, Select);
    if m.queues.events != [] { assert |m.sent + [m.queues.events[0]]| == |m.sent| + 1; }
  }

  /** The end of the merging wait sends up to 64 of the oldest metrics and gives the next turn to observations if any
      have arrived; otherwise the turn stays as it was. */
  lemma WaitEndsExactly(steps: seq<Step>)
    requires Run(steps).Some? && Enabled(Run(steps).value, EndWait)
    ensures var m, n := Run(steps).value, Next(Run(steps).value, EndWait);
            var q, size := m.queues, if |m.queues.metrics| < 64 then |m.queues.metrics| else 64;
            && n.batches == m.batches + [q.metrics[..size]] && n.queues.metrics == q.metrics[size..] && size > 0
            && n.queues.events == q.events && n.sent == m.sent && !n.waiting && n.queues.dropped == q.dropped
            && (n.queues.preferMetrics <==> q.preferMetrics && q.events == [])
  {
    RunKeepsInv(steps);
    hide Run;
  }

  /** Neither kind is passed over twice in a row while it waits. */
  lemma NotPassedTwice(steps: seq<Step>)
    requires Run(steps).Some? && Enabled(Run(steps).value, Select)
    ensures var m := Run(steps).value;
            && (m.passedEvents ==> Choose(m.queues) == SendObservation)
            && (m.passedMetrics ==> Choose(m.queues) != SendObservation)
  {
    RunKeepsInv(steps);
    hide Run;
  }

  // ----- Turns and draining -----

  predicate IsOffer(s: Step) {
    s.Offer? || s.OfferMetricRecord?
  }

  lemma Extend(steps: seq<Step>, s: Step)
    requires Run(steps).Some? && Enabled(Run(steps).value, s)
    ensures Run(steps + [s]) == Some(Next(Run(steps).value, s))
  {
    assert (steps + [s])[..|steps|] == steps;
  }

  lemma OfferKeepsTurn(m: Machine, s: Step)
    requires IsOffer(s) && |m.queues.events| <= MAX_EVENTS
    ensures var n := Next(m, s);
            && n.sent == m.sent && n.batches == m.batches && n.waiting == m.waiting
            && n.queues.preferMetrics == m.queues.preferMetrics
            && (m.queues.events != [] ==> n.queues.events != []) && (m.queues.metrics != [] ==> n.queues.metrics != [])
  {
  }

  /** Producers send nothing and do not change whose turn it is. */
  lemma {:induction false} OffersKeepTurn(steps: seq<Step>, offers: seq<Step>)
    requires Run(steps).Some? && forall s :: s in offers ==> IsOffer(s)
    ensures Run(steps + offers).Some?
    ensures var m, n := Run(steps).value, Run(steps + offers).value;
            && n.sent == m.sent && n.batches == m.batches && n.waiting == m.waiting
            && n.queues.preferMetrics == m.queues.preferMetrics
            && (m.queues.events != [] ==> n.queues.events != []) && (m.queues.metrics != [] ==> n.queues.metrics != [])
  {
    hide Next;
    if offers == [] {
      assert steps + [] == steps;
    } else {
      var k := |offers| - 1;
      OffersKeepTurn(steps, offers[..k]);
      assert steps + offers == steps + offers[..k] + [offers[k]] && IsOffer(offers[k]);
      RunKeepsInv(steps + offers[..k]);
      Extend(steps + offers[..k], offers[k]);
      OfferKeepsTurn(Run(steps + offers[..k]).value, offers[k]);
    }
  }

  /** While both kinds wait they take turns: whatever producers add in between, a selection that follows an observation
      goes for a batch, which waits for more only if no observation is left, and one that follows a batch sends an
      observation. */
  lemma TurnsAlternate(steps: seq<Step>, offers: seq<Step>)
    requires Run(steps).Some? && Enabled(Run(steps).value, Select) && forall s :: s in offers ==> IsOffer(s)
    requires Run(steps).value.queues.events != [] && Run(steps).value.queues.metrics != []
    ensures Run(steps + [Select] + offers + [Select]).Some?
    ensures var m0, m1 := Run(steps).value, Run(steps + [Select] + offers).value;
            var m2 := Run(steps + [Select] + offers + [Select]).value;
            || (m1.sent == m0.sent + [m0.queues.events[0]] && m1.batches == m0.batches
                && m2.sent == m1.sent && (m2.waiting || |m2.batches| == |m1.batches| + 1)
                && (m2.waiting ==> m1.queues.events == []))
            || (m1.sent == m0.sent && |m1.batches| == |m0.batches| + 1 && m1.queues.events != []
                && m2.sent == m1.sent + [m1.queues.events[0]] && m2.batches == m1.batches)
  {
    hide Run, Next;
    Extend(steps, Select);
    SelectsExactly(steps);
    OffersKeepTurn(steps + [Select], offers);
    Extend(steps + [Select] + offers, Select);
    SelectsExactly(steps + [Select] + offers);
  }

  /** Observations that arrive during the merging wait go next, right after the batch that waited. */
  lemma ArrivedDuringWaitGoNext(steps: seq<Step>, offers: seq<Step>)
    requires Run(steps).Some? && Enabled(Run(steps).value, EndWait) && forall s :: s in offers ==> IsOffer(s)
    requires Run(steps).value.queues.events != []
    ensures Run(steps + [EndWait] + offers + [Select]).Some?
    ensures var m0, m1 := Run(steps).value, Run(steps + [EndWait] + offers).value;
            && m1.queues.events != [] && |m1.batches| == |m0.batches| + 1 && m1.sent == m0.sent
            && Run(steps + [EndWait] + offers + [Select]).value.sent == m1.sent + [m1.queues.events[0]]
  {
    Extend(steps, EndWait);
    hide Run;
    OffersKeepTurn(steps + [EndWait], offers);
    Extend(steps + [EndWait] + offers, Select);
    SelectsExactly(steps + [EndWait] + offers);
  }

  lemma WaitEnds(m: Machine)
    requires Inv(m) && m.waiting
    ensures !Next(m, EndWait).waiting && |Next(m, EndWait).queues.metrics| < |m.queues.metrics|
    ensures |Next(m, EndWait).queues.events| == |m.queues.events|
    ensures Next(m, EndWait).sent + Next(m, EndWait).queues.events == m.sent + m.queues.events
  {
    hide Subsequence, Failures, Flatten;
  }

  /** From every run the broadcaster can go on until nothing waits: everything that was queued is then sent, in
      order. */
  lemma {:induction false} BroadcastDrains(steps: seq<Step>) returns (whole: seq<Step>)
    requires Run(steps).Some?
    ensures Run(whole).Some? && steps <= whole && forall s :: s in whole[|steps|..] ==> s == Select || s == EndWait
    ensures var m, n := Run(steps).value, Run(whole).value;
            && n.queues.events == [] && n.queues.metrics == [] && !n.waiting
            && n.sent == m.sent + m.queues.events && Flatten(n.batches) == Flatten(m.batches) + m.queues.metrics
    decreases |Run(steps).value.queues.events| + |Run(steps).value.queues.metrics|,
              if Run(steps).value.waiting then 0 else 1
  {
    hide Run, Next, Subsequence, Failures, Flatten;
    var m := Run(steps).value;
    RunKeepsInv(steps);
    if m.queues.events == [] && m.queues.metrics == [] {
      assert m.sent + [] == m.sent && Flatten(m.batches) + [] == Flatten(m.batches);
      return steps;
    }
    var s := if m.waiting then EndWait else Select;
    OneSelection(steps, s);
    whole := BroadcastDrains(steps + [s]);
    assert whole[|steps|..] == [s] + whole[|steps| + 1..];
  }

  lemma OneSelection(steps: seq<Step>, s: Step)
    requires Run(steps).Some? && Enabled(Run(steps).value, s) && !IsOffer(s)
    ensures Run(steps + [s]).Some?
    ensures var m, n := Run(steps).value, Run(steps + [s]).value;
            && (|n.queues.events| + |n.queues.metrics| < |m.queues.events| + |m.queues.metrics|
                || (n.queues.events == m.queues.events && n.queues.metrics == m.queues.metrics && n.waiting
                  && !m.waiting))
            && n.sent + n.queues.events == m.sent + m.queues.events
            && Flatten(n.batches) + n.queues.metrics == Flatten(m.batches) + m.queues.metrics
  {
    hide Run, Next, Subsequence, Failures, Flatten;
    var m := Run(steps).value;
    Extend(steps, s);
    RunKeepsInv(steps);
    RunKeepsInv(steps + [s]);
    Accepted(m, s);
    if m.waiting {
      WaitEnds(m);
    } else {
      SelectsExactly(steps);
      if m.queues.events != [] { assert m.queues.events == [m.queues.events[0]] + m.queues.events[1..]; }
    }
  }

  lemma Accepted(m: Machine, s: Step)
    requires Enabled(m, s) && !IsOffer(s)
    ensures Next(m, s).acceptedMetrics == m.acceptedMetrics
  {
  }
}
