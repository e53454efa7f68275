/** The PC node's authentication send queue: many producers, one drain on the event thread, and a Sender result that is
    held back until the queue is empty. Each locked section is one atomic step. */
module SendQueue {
  import opened Bytes

  const MAX_QUEUE := 8192
  const MAX_BATCH := 256

  type Datagram = seq<Byte>

  /** The fields that the lock protects. */
  datatype Queue = Queue(running: bool, pending: seq<Datagram>, scheduled: bool, fault: bool)

  // ----- The locked sections -----

  datatype Enqueued = Enqueued(queue: Queue, accepted: bool, postDrain: bool)

  function Enqueue(q: Queue, d: Datagram): Enqueued {
    if !q.running || q.fault || |q.pending| >= MAX_QUEUE
    then Enqueued(q.(fault := q.fault || |q.pending| >= MAX_QUEUE), false, false)
    else Enqueued(q.(pending := q.pending + [d], scheduled := true), true, !q.scheduled)
  }

  function BatchSize(q: Queue): (n: nat)
    ensures n <= |q.pending| && n <= MAX_BATCH && (n == |q.pending| || n == MAX_BATCH)
  {
    if |q.pending| < MAX_BATCH then |q.pending| else MAX_BATCH
  }

  datatype Taken = Taken(queue: Queue, batch: seq<Datagram>, hasMore: bool)

  function TakeBatch(q: Queue): Taken {
    var n := BatchSize(q);
    var hasMore := n < |q.pending|;
    Taken(q.(pending := q.pending[n..], scheduled := hasMore && q.scheduled), q.pending[..n], hasMore)
  }

  function WriteFailed(q: Queue): Queue {
    q.(pending := [], scheduled := false, fault := true)
  }

  /** A new round clears the fault flag only when nothing is waiting. */
  function ClearFaultOnStart(q: Queue): Queue {
    if q.pending == [] then q.(fault := false) else q
  }

  datatype Verdict = Deferred | Completed | Overrun

  function ResultVerdict(q: Queue): Verdict {
    if q.scheduled || q.pending != [] then Deferred else if q.fault then Overrun else Completed
  }

  class AuthenticationSendQueue {
    var running: bool
    var pending: seq<Datagram>
    var scheduled: bool
    var fault: bool

    function State(): Queue
      reads this
    {
      Queue(running, pending, scheduled, fault)
    }

    ghost predicate Valid()
      reads this
    {
      |pending| <= MAX_QUEUE
    }

    constructor ()
      ensures Valid() && State() == Queue(false, [], false, false)
    {
      running, pending, scheduled, fault := false, [], false, false;
    }

    method QueueDatagram(d: Datagram) returns (accepted: bool, postDrain: bool)
      requires Valid()
      modifies this
      ensures Valid() && Enqueued(State(), accepted, postDrain) == Enqueue(old(State()), d)
    {
      if !running || fault || |pending| >= MAX_QUEUE {
        fault := fault || |pending| >= MAX_QUEUE;
        return false, false;
      }
      pending := pending + [d];
      postDrain := false;
      if !scheduled {
        scheduled := true;
        postDrain := true;
      }
      accepted := true;
    }

    /** Moves up to a batch of datagrams out of the queue, one at a time from the front. */
    method BeginDrain() returns (batch: seq<Datagram>, hasMore: bool)
      requires Valid()
      modifies this
      ensures Valid() && Taken(State(), batch, hasMore) == TakeBatch(old(State()))
    {
      var size := if |pending| < MAX_BATCH then |pending| else MAX_BATCH;
      batch := [];
      for i := 0 to size
        invariant batch == old(pending)[..i] && pending == old(pending)[i..]
        invariant running == old(running) && scheduled == old(scheduled) && fault == old(fault)
      {
        batch := batch + [pending[0]];
        pending := pending[1..];
      }
      hasMore := pending != [];
      if !hasMore { scheduled := false; }
    }

    method RecordWriteFailure()
      modifies this
      ensures Valid() && State() == WriteFailed(old(State()))
    {
      fault := true;
      pending := [];
      scheduled := false;
    }

    method PrepareRoundStart()
      requires Valid()
      modifies this
      ensures Valid() && State() == ClearFaultOnStart(old(State()))
    {
      if pending == [] { fault := false; }
    }

    method JudgeCompletedResult() returns (verdict: Verdict)
      ensures verdict == ResultVerdict(State())
    {
      if scheduled || pending != [] { return Deferred; }
      verdict := if fault then Overrun else Completed;
    }

    method Reset()
      modifies this
      ensures Valid() && State() == old(State()).(pending := [], scheduled := false, fault := false)
    {
      pending, scheduled, fault := [], false, false;
    }
  }

  // ----- The machine -----

  /** What the event thread is doing between its locked sections. */
  datatype Thread = Idle | Writing(rest: seq<Datagram>, hasMore: bool) | Starting | Stopping

  /** `toPost` counts producers that set the scheduled flag and have not posted their drain yet; `posted` counts the
      drains waiting in the event loop. `offered` lists the datagrams that producers gave to the running node,
      `accepted` and `written` what became of them; this history begins when a round or a stop clears the queue, and a
      start forgets what was refused before it. `lost` says that a failed write dropped accepted datagrams in that
      time. */
  datatype Machine = Machine(queue: Queue, thread: Thread, toPost: nat, posted: nat, offered: seq<Datagram>,
                             accepted: seq<Datagram>, written: seq<Datagram>, lost: bool)

  const INITIAL := Machine(Queue(false, [], false, false), Idle, 0, 0, [], [], [], false)

  datatype Step =
    | Produce(d: Datagram)
    | PostDrain
    | DrainBegins
    | WriteNext(ok: bool)
    | DrainEnds
    | RoundStart
    | ResultArrives(verdict: Verdict)
    | StopBegins
    | StopClears
    | StartBegins
    | StartClears

  predicate Enabled(m: Machine, s: Step) {
    match s
    case Produce(_) => true
    case PostDrain => m.toPost > 0
    case DrainBegins => m.thread == Idle && m.posted > 0
    case WriteNext(_) => m.thread.Writing? && m.thread.rest != []
    case DrainEnds => m.thread.Writing? && m.thread.rest == []
    case RoundStart => m.thread == Idle && m.queue.running
    case ResultArrives(verdict) => m.thread == Idle && verdict == ResultVerdict(m.queue)
    case StopBegins => m.thread == Idle
    case StopClears => m.thread == Stopping
    case StartBegins => m.thread == Idle && !m.queue.running
    case StartClears => m.thread == Starting
  }

  function Next(m: Machine, s: Step): Machine
    requires Enabled(m, s)
  {
    match s
    case Produce(d) =>
      var e := Enqueue(m.queue, d);
      m.(queue := e.queue, toPost := if e.postDrain then m.toPost + 1 else m.toPost,
         offered := if m.queue.running then m.offered + [d] else m.offered,
         accepted := if e.accepted then m.accepted + [d] else m.accepted)
    case PostDrain => m.(toPost := m.toPost - 1, posted := m.posted + 1)
    case DrainBegins =>
      var t := TakeBatch(m.queue);
      m.(queue := t.queue, posted := m.posted - 1, thread := Writing(t.batch, t.hasMore))
    case WriteNext(ok) =>
      if ok then m.(thread := Writing(m.thread.rest[1..], m.thread.hasMore), written := m.written + [m.thread.rest[0]])
      else m.(queue := WriteFailed(m.queue), thread := Idle, lost := true)
    case DrainEnds => m.(thread := Idle, posted := if m.thread.hasMore then m.posted + 1 else m.posted)
    case RoundStart =>
      if m.queue.pending == [] then m.(queue := ClearFaultOnStart(m.queue), offered := [], accepted := [],
        written := [], lost := false)
      else m.(queue := ClearFaultOnStart(m.queue))
    case ResultArrives(_) => m
    case StopBegins => m.(queue := m.queue.(running := false), thread := Stopping)
    case StopClears =>
      m.(queue := m.queue.(pending := [], scheduled := false, fault := false), thread := Idle,
         offered := [], accepted := [], written := [], lost := false)
    case StartBegins => m.(queue := m.queue.(running := true), thread := Starting)
    case StartClears => m.(queue := m.queue.(fault := false), thread := Idle, offered := m.accepted)
  }

  /** The datagrams of the batch that are still to be written. */
  function Unwritten(m: Machine): seq<Datagram> {
    if m.thread.Writing? then m.thread.rest else []
  }

  /** A drain is posted, about to be posted, or running and going to post itself again. */
  predicate DrainOutstanding(m: Machine) {
    m.toPost + m.posted > 0 || (m.thread.Writing? && m.thread.hasMore)
  }

  ghost predicate Inv(m: Machine) {
    && |m.queue.pending| <= MAX_QUEUE && |Unwritten(m)| <= MAX_BATCH
    && (m.queue.scheduled <==> m.queue.pending != [])
    && (m.queue.pending != [] ==> DrainOutstanding(m))
    && (m.lost ==> m.queue.fault && m.queue.pending == [] && Unwritten(m) == [] && m.written != m.accepted)
    && (!m.queue.running && m.thread != Stopping ==> !m.lost && m.queue.pending == [] && Unwritten(m) == [])
    && (m.thread == Starting ==> !m.lost)
    && (!m.lost ==> m.accepted == m.written + Unwritten(m) + m.queue.pending)
    && m.written <= m.accepted <= m.offered
    && (!m.queue.fault ==> m.accepted == m.offered)
    && (m.queue.fault && m.queue.running ==> m.lost || m.accepted != m.offered)
    && (m.queue.fault ==> m.queue.running || m.thread == Stopping)
  }

  lemma DrainBeginKeepsInv(m: Machine)
    requires Inv(m) && Enabled(m, DrainBegins)
    ensures Inv(Next(m, DrainBegins))
  {
    var t := TakeBatch(m.queue);
    assert m.queue.pending == t.batch + t.queue.pending;
    hide BatchSize;
  }

  lemma WriteKeepsInv(m: Machine, ok: bool)
    requires Inv(m) && Enabled(m, WriteNext(ok))
    ensures Inv(Next(m, WriteNext(ok)))
  {
    if ok && !m.lost {
      var n := Next(m, WriteNext(true));
      assert m.written + m.thread.rest == n.written + n.thread.rest;
    }
  }

  lemma ProduceKeepsInv(m: Machine, d: Datagram)
    requires Inv(m)
    ensures Inv(Next(m, Produce(d)))
  {
  }

  lemma NextKeepsInv(m: Machine, s: Step)
    requires Inv(m) && Enabled(m, s)
    ensures Inv(Next(m, s))
  {
    match s
    case DrainBegins => DrainBeginKeepsInv(m);
    case WriteNext(ok) => WriteKeepsInv(m, ok);
    case Produce(d) => ProduceKeepsInv(m, d);
    case _ => hide TakeBatch, Enqueue, WriteFailed;
  }

  ghost function Run(steps: seq<Step>): Option<Machine> {
    if steps == [] then Some(INITIAL)
    else
      var before := Run(steps[..|steps| - 1]);
      var s := steps[|steps| - 1];
      if before.Some? && Enabled(before.value, s) then Some(Next(before.value, s)) else None
  }

  lemma {:induction false} RunKeepsInv(steps: seq<Step>)
    requires Run(steps).Some?
    ensures Inv(Run(steps).value)
  {
    if steps != [] {
      RunKeepsInv(steps[..|steps| - 1]);
      NextKeepsInv(Run(steps[..|steps| - 1]).value, steps[|steps| - 1]);
      hide Inv, Next, Enabled;
    }
  }

  // ----- What a run guarantees -----

  /** In every run the queue and its batches are bounded, a waiting datagram always has a drain coming, and what was
      written is the accepted datagrams in order, up to a prefix. */
  lemma QueueSafety(steps: seq<Step>)
    requires Run(steps).Some?
    ensures var m := Run(steps).value;
            && |m.queue.pending| <= 8192 && |Unwritten(m)| <= 256 && m.written <= m.accepted
            && (m.queue.pending != [] ==> DrainOutstanding(m))
  {
    RunKeepsInv(steps);
    hide Run;
  }

  /** A Sender result is broadcast as completed only when every datagram offered since the fault flag was last cleared
      has been accepted and written, in order. */
  lemma CompletedMeansWritten(steps: seq<Step>)
    requires Run(steps).Some? && Enabled(Run(steps).value, ResultArrives(Completed))
    ensures var m := Run(steps).value; m.offered == m.accepted == m.written && !m.lost
  {
    RunKeepsInv(steps);
    hide Run;
  }

  /** A refused datagram is always reported: what is accepted stays the first part of what is offered, and from the
      first refusal until a new start or stop no verdict is Completed. */
  lemma RefusalIsReported(steps: seq<Step>, verdict: Verdict)
    requires Run(steps).Some? && Run(steps).value.accepted != Run(steps).value.offered
    ensures Run(steps).value.accepted <= Run(steps).value.offered
    ensures Enabled(Run(steps).value, ResultArrives(verdict)) ==> verdict != Completed
  {
    RunKeepsInv(steps);
    hide Run;
  }

  /** Exactly what a result says in every run: it waits while datagrams wait, it is passed as completed if and only if
      everything offered since the fault flag was last cleared has been written, and otherwise it is an overrun. */
  lemma VerdictIff(steps: seq<Step>, verdict: Verdict)
    requires Run(steps).Some? && Enabled(Run(steps).value, ResultArrives(verdict))
    ensures var m := Run(steps).value;
            && (verdict == Deferred <==> m.queue.pending != [])
            && (verdict == Completed <==> m.written == m.offered)
  {
    RunKeepsInv(steps);
    hide Run;
    var m := Run(steps).value;
    if m.queue.pending != [] { assert |m.accepted| > |m.written|; }
  }

  /** In every run a running node takes the next datagram if and only if it has refused none since the fault flag was
      last cleared, lost none, and fewer than 8192 wait. Then the datagram waits last and a drain is coming, posted by
      the first that waits. */
  lemma AcceptedIff(steps: seq<Step>, d: Datagram)
    requires Run(steps).Some? && Run(steps).value.queue.running
    ensures var m, n := Run(steps).value, Next(Run(steps).value, Produce(d));
            && n.offered == m.offered + [d]
            && (n.accepted == m.accepted + [d] <==>
                  m.accepted == m.offered && !m.lost && |m.queue.pending| < 8192)
            && (n.accepted == m.accepted + [d] ==>
                  n.queue.pending == m.queue.pending + [d] && DrainOutstanding(n))
            && (n.accepted != m.accepted + [d] ==> n.accepted == m.accepted && n.queue.pending == m.queue.pending)
            && n.toPost == m.toPost + if n.queue.pending != [] && m.queue.pending == [] then 1 else 0
  {
    RunKeepsInv(steps);
    hide Run;
  }

  /** A failed write gives up the rest of its batch and everything that waits, counts none of it as written, and raises
      the fault. */
  lemma FailedWriteDrops(m: Machine)
    requires Inv(m) && Enabled(m, WriteNext(false))
    ensures var n := Next(m, WriteNext(false));
            && n.lost && n.queue == Queue(m.queue.running, [], false, true) && n.thread == Idle
            && n.written == m.written && n.accepted == m.accepted && n.offered == m.offered
            && n.toPost == m.toPost && n.posted == m.posted
  {
  }

  /** A result is deferred only while a drain is still coming, so deferral does not spin on an idle queue. */
  lemma DeferredHasDrain(steps: seq<Step>)
    requires Run(steps).Some? && Enabled(Run(steps).value, ResultArrives(Deferred))
    ensures Run(steps).value.toPost + Run(steps).value.posted > 0
  {
    RunKeepsInv(steps);
    hide Run;
  }

  /** Accepted datagrams that are never written are always reported: from the moment a failed write drops them until a
      new round starts or the node stops, the only verdict is an overrun. */
  lemma LossIsReported(steps: seq<Step>, verdict: Verdict)
    requires Run(steps).Some? && Run(steps).value.lost && Enabled(Run(steps).value, ResultArrives(verdict))
    ensures verdict != Completed
  {
    RunKeepsInv(steps);
    hide Run;
  }

  // ----- Draining an idle node -----

  /** Writes the rest of the current batch without failures. */
  function FinishBatch(m: Machine): Machine
    requires m.thread.Writing?
    decreases |m.thread.rest|
  {
    if m.thread.rest == [] then Next(m, DrainEnds) else FinishBatch(Next(m, WriteNext(true)))
  }

  lemma {:induction false} FinishBatchWrites(m: Machine)
    requires m.thread.Writing?
    ensures FinishBatch(m) == m.(thread := Idle, written := m.written + m.thread.rest,
                                 posted := if m.thread.hasMore then m.posted + 1 else m.posted)
    ensures Inv(m) ==> Inv(FinishBatch(m))
    decreases |m.thread.rest|
  {
    hide Inv;
    if m.thread.rest == [] {
      assert m.written + [] == m.written;
      if Inv(m) { NextKeepsInv(m, DrainEnds); }
    } else {
      var n := Next(m, WriteNext(true));
      if Inv(m) { NextKeepsInv(m, WriteNext(true)); }
      FinishBatchWrites(n);
      assert m.written + m.thread.rest == n.written + n.thread.rest;
    }
  }

  /** Runs the posted drains, one batch each, until none is left. */
  function DrainAll(m: Machine): Machine
    requires m.thread == Idle
    decreases |m.queue.pending|, m.posted
  {
    if m.posted == 0 then m
    else
      FinishBatchWrites(Next(m, DrainBegins));
      DrainAll(FinishBatch(Next(m, DrainBegins)))
  }

  /** One drain: the written batch leaves the queue, and nothing else of what an idle node promises changes. */
  lemma OneDrain(m: Machine)
    requires Inv(m) && m.thread == Idle && m.toPost == 0 && !m.queue.fault && m.posted > 0
    ensures var n := FinishBatch(Next(m, DrainBegins));
            && Inv(n) && n.thread == Idle && n.toPost == 0 && !n.queue.fault && n.accepted == m.accepted
            && DrainAll(m) == DrainAll(n)
            && (|n.queue.pending| < |m.queue.pending| || (n.queue.pending == m.queue.pending && n.posted < m.posted))
  {
    hide FinishBatch, Inv;
    var begun := Next(m, DrainBegins);
    DrainBeginKeepsInv(m);
    FinishBatchWrites(begun);
  }

  lemma NothingPosted(m: Machine)
    requires Inv(m) && m.thread == Idle && m.toPost == 0 && m.posted == 0 && !m.queue.fault
    ensures DrainAll(m) == m && m.queue.pending == [] && m.written == m.accepted && ResultVerdict(m.queue) == Completed
  {
    assert m.written + Unwritten(m) + m.queue.pending == m.written;
  }

  /** With no new datagrams and no write failures, the posted drains empty the queue: everything accepted is written in
      order, and the result that waited is then broadcast as completed. */
  lemma {:induction false} DrainingCompletes(m: Machine)
    requires Inv(m) && m.thread == Idle && m.toPost == 0 && !m.queue.fault
    ensures var n := DrainAll(m);
            n.queue.pending == [] && n.written == n.accepted == m.accepted && ResultVerdict(n.queue) == Completed
    decreases |m.queue.pending|, m.posted
  {
    hide Inv, FinishBatch, DrainAll, ResultVerdict;
    if m.posted > 0 {
      OneDrain(m);
      DrainingCompletes(FinishBatch(Next(m, DrainBegins)));
    } else {
      NothingPosted(m);
    }
  }

  // ----- A whole round -----

  lemma Extend(steps: seq<Step>, m: Machine, s: Step)
    requires Run(steps) == Some(m) && Enabled(m, s)
    ensures Run(steps + [s]) == Some(Next(m, s))
  {
    assert (steps + [s])[..|steps|] == steps;
  }

  lemma {:induction false} FinishBatchRuns(steps: seq<Step>, m: Machine) returns (whole: seq<Step>)
    requires Run(steps) == Some(m) && m.thread.Writing?
    ensures Run(whole) == Some(FinishBatch(m))
    decreases |m.thread.rest|
  {
    hide Run;
    if m.thread.rest == [] {
      Extend(steps, m, DrainEnds);
      whole := steps + [DrainEnds];
    } else {
      Extend(steps, m, WriteNext(true));
      whole := FinishBatchRuns(steps + [WriteNext(true)], Next(m, WriteNext(true)));
    }
  }

  lemma {:induction false} DrainAllRuns(steps: seq<Step>, m: Machine) returns (whole: seq<Step>)
    requires Run(steps) == Some(m) && m.thread == Idle
    ensures Run(whole) == Some(DrainAll(m))
    decreases |m.queue.pending|, m.posted
  {
    hide Run, FinishBatch;
    if m.posted == 0 { return steps; }
    var begun := Next(m, DrainBegins);
    Extend(steps, m, DrainBegins);
    FinishBatchWrites(begun);
    whole := FinishBatchRuns(steps + [DrainBegins], begun);
    whole := DrainAllRuns(whole, FinishBatch(begun));
  }

  lemma {:induction false} PostAllRuns(steps: seq<Step>, m: Machine) returns (whole: seq<Step>)
    requires Run(steps) == Some(m)
    ensures Run(whole) == Some(m.(toPost := 0, posted := m.posted + m.toPost))
    decreases m.toPost
  {
    hide Run;
    if m.toPost == 0 { return steps; }
    Extend(steps, m, PostDrain);
    whole := PostAllRuns(steps + [PostDrain], Next(m, PostDrain));
  }

  /** Nothing waits or was offered, and no fault is up. */
  ghost predicate Clean(m: Machine) {
    m.queue == Queue(true, [], false, false) && m.thread == Idle && m.offered == m.accepted == m.written == []
      && !m.lost
  }

  lemma {:induction false} ProduceAllRuns(steps: seq<Step>, m: Machine, ds: seq<Datagram>)
    returns (whole: seq<Step>, n: Machine)
    requires Run(steps) == Some(m) && Clean(m) && |ds| <= MAX_QUEUE
    ensures Run(whole) == Some(n) && n.thread == Idle && n.offered == n.accepted == ds && n.written == []
    ensures n.queue == Queue(true, ds, ds != [], false) && !n.lost
  {
    hide Run;
    if ds == [] { return steps, m; }
    var k := |ds| - 1;
    whole, n := ProduceAllRuns(steps, m, ds[..k]);
    Extend(whole, n, Produce(ds[k]));
    whole, n := whole + [Produce(ds[k])], Next(n, Produce(ds[k]));
    assert ds == ds[..k] + [ds[k]];
  }

  /** Whatever happened before, stopping and starting an idle node gives an empty queue without a fault. */
  lemma RestartCleans(steps: seq<Step>, m: Machine)
    requires Run(steps) == Some(m) && m.thread == Idle
    ensures Run(steps + [StopBegins] + [StopClears] + [StartBegins] + [StartClears]).Some?
    ensures var n := Run(steps + [StopBegins] + [StopClears] + [StartBegins] + [StartClears]).value;
            Clean(n) && n.toPost == m.toPost && n.posted == m.posted
  {
    hide Run;
    var m1 := Next(m, StopBegins);
    var m2 := Next(m1, StopClears);
    var m3 := Next(m2, StartBegins);
    Extend(steps, m, StopBegins);
    Extend(steps + [StopBegins], m1, StopClears);
    Extend(steps + [StopBegins] + [StopClears], m2, StartBegins);
    Extend(steps + [StopBegins] + [StopClears] + [StartBegins], m3, StartClears);
  }

  /** From every run that leaves the event thread idle, whatever was refused or lost in it: after a stop and a start, a
      round of up to 8192 datagrams can be sent so that all of them are written in order and the result passes. */
  lemma RoundGoesThrough(steps: seq<Step>, ds: seq<Datagram>) returns (whole: seq<Step>)
    requires Run(steps).Some? && Run(steps).value.thread == Idle && |ds| <= MAX_QUEUE
    ensures Run(whole).Some? && Enabled(Run(whole).value, ResultArrives(Completed))
    ensures Run(whole).value.queue.running && Run(whole).value.offered == Run(whole).value.written == ds
  {
    RestartCleans(steps, Run(steps).value);
    whole := steps + [StopBegins] + [StopClears] + [StartBegins] + [StartClears];
    var m := Run(whole).value;
    Extend(whole, m, RoundStart);
    whole, m := whole + [RoundStart], Next(m, RoundStart);
    assert Clean(m);
    hide Run, DrainAll;
    whole, m := ProduceAllRuns(whole, m, ds);
    whole := PostAllRuns(whole, m);
    m := m.(toPost := 0, posted := m.posted + m.toPost);
    RunKeepsInv(whole);
    DrainingCompletes(m);
    DrainAllKeeps(m);
    whole := DrainAllRuns(whole, m);
  }

  lemma {:induction false} DrainAllKeeps(m: Machine)
    requires m.thread == Idle
    ensures DrainAll(m).thread == Idle && DrainAll(m).queue.running == m.queue.running
    ensures DrainAll(m).offered == m.offered
    decreases |m.queue.pending|, m.posted
  {
    hide FinishBatch;
    if m.posted > 0 {
      FinishBatchWrites(Next(m, DrainBegins));
      DrainAllKeeps(FinishBatch(Next(m, DrainBegins)));
    }
  }
}
