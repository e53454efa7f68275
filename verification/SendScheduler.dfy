/** The test endpoint's capture and replay scheduler: a captured datagram becomes one task per repetition, and the
    worker always sends the pending task that is due first. */
module SendScheduler {
  import opened Arithmetic
  import opened Bytes
  import opened UdpPacket
  import opened UdpCodec

  const MAX_PENDING := 4096

  datatype Task = Task(payload: seq<Byte>, original: seq<Byte>, index: nat, capturedAt: nat, due: nat)

  /** What one plan does to each targeted datagram; a flood captures nothing. */
  datatype Treatment = Tamper(offset: nat, mask: Byte) | Replay(delay: nat, gap: nat) | Flood

  datatype Plan = Plan(context: Context, chainId: nat, senderIp: nat, targets: seq<nat>, repeat: nat,
      treatment: Treatment) {
    /** What the plan constructors accept. */
    ghost predicate Valid() {
      context.Valid() && repeat > 0 && (treatment.Tamper? ==> treatment.offset < 32 && treatment.mask != 0)
    }
  }

  function PowerOfTwo(n: nat): nat {
    if n == 0 then 1 else 2 * PowerOfTwo(n - 1)
  }

  /** The lowest n bits of a, each flipped where m has a one. */
  function FlipBits(a: nat, m: nat, n: nat): (r: nat)
    ensures r < PowerOfTwo(n)
  {
    if n == 0 then 0 else (a % 2 + m % 2) % 2 + 2 * FlipBits(a / 2, m / 2, n - 1)
  }

  /** Exclusive or of two bytes. */
  function Xor(a: Byte, m: Byte): Byte {
    assert PowerOfTwo(8) == 256 by { assert PowerOfTwo(4) == 16; }
    FlipBits(a, m, 8)
  }

  lemma {:induction false} FlipsIff(a: nat, m: nat, n: nat)
    requires a < PowerOfTwo(n) && m < PowerOfTwo(n)
    ensures FlipBits(a, m, n) == a <==> m == 0
  {
    if n > 0 { FlipsIff(a / 2, m / 2, n - 1); }
  }

  /** A mask changes every byte unless it is zero. */
  lemma XorFlips(a: Byte, m: Byte)
    ensures Xor(a, m) == a <==> m == 0
  {
    assert PowerOfTwo(8) == 256 by { assert PowerOfTwo(4) == 16; }
    FlipsIff(a, m, 8);
    hide FlipBits;
  }

  /** Bit i of a number. */
  function Bit(a: nat, i: nat): nat {
    if i == 0 then a % 2 else Bit(a / 2, i - 1)
  }

  lemma {:induction false} FlippedBit(a: nat, m: nat, n: nat, i: nat)
    requires i < n
    ensures Bit(FlipBits(a, m, n), i) == if Bit(m, i) == 1 then 1 - Bit(a, i) else Bit(a, i)
  {
    if i > 0 { FlippedBit(a / 2, m / 2, n - 1, i - 1); }
  }

  /** Exclusive or flips exactly the bits of the mask. */
  lemma XorBit(a: Byte, m: Byte, i: nat)
    requires i < 8
    ensures Bit(Xor(a, m), i) == if Bit(m, i) == 1 then 1 - Bit(a, i) else Bit(a, i)
  {
    FlippedBit(a, m, 8, i);
    hide FlipBits, Bit;
  }

  // ----- Capturing -----

  /** The datagram that is sent in place of a captured one. */
  function Payload(t: Treatment, b: seq<Byte>): (r: seq<Byte>)
    requires t.Tamper? ==> t.offset < 32 && |b| >= MESSAGE_OFFSET + 32
    ensures |r| == |b|
  {
    if t.Tamper? then b[MESSAGE_OFFSET + t.offset := Xor(b[MESSAGE_OFFSET + t.offset], t.mask)] else b
  }

  function DueTime(t: Treatment, capturedAt: nat, repetition: nat): nat {
    if t.Replay? then capturedAt + t.delay + repetition * t.gap else capturedAt
  }

  /** The send tasks of one captured datagram, in order of repetition. */
  function TasksFor(p: Plan, b: seq<Byte>, index: nat, now: nat, n: nat): (tasks: seq<Task>)
    requires p.treatment.Tamper? ==> p.treatment.offset < 32 && |b| >= MESSAGE_OFFSET + 32
    ensures |tasks| == n
    ensures forall i :: 0 <= i < n ==>
              tasks[i] == Task(Payload(p.treatment, b), b, index, now, DueTime(p.treatment, now, i))
  {
    if n == 0 then []
    else TasksFor(p, b, index, now, n - 1) +
         [Task(Payload(p.treatment, b), b, index, now, DueTime(p.treatment, now, n - 1))]
  }

  /** The accepted data packet of the plan's chain that a datagram holds, if the plan targets it. */
  function Targeted(p: Plan, b: seq<Byte>): Option<nat>
    requires p.context.Valid()
  {
    if |b| < FIXED_HEADER_SIZE then None
    else
      var d := Decode(b, p.context);
      if FromBigEndian(b[..8]) != p.chainId || FromBigEndian(b[12..16]) == 0 then None
      else if d.Err? then None
      else if FromBigEndian(b[12..16]) !in p.targets then None
      else if p.treatment.Tamper? && |b| < MESSAGE_OFFSET + 32 then None
      else Some(FromBigEndian(b[12..16]))
  }

  // ----- The scheduler's state -----

  /** An execution waits for its start time, runs, and ends when it is stopped. */
  datatype Phase = Scheduled | Running | Stopped

  datatype Scheduler = Scheduler(phase: Phase, stopRequested: bool,
                                 tasks: seq<Task>, captured: set<nat>, capturedCount: nat, sent: nat, errors: nat)

  const INITIAL_SCHEDULER := Scheduler(Scheduled, false, [], {}, 0, 0, 0)

  /** The packet index that a datagram is captured for: only a running tamper or replay plan captures, only from its own
      sender, and each index once. */
  function CapturedIndex(s: Scheduler, p: Plan, b: seq<Byte>, source: nat): Option<nat>
    requires p.Valid()
  {
    if s.phase != Running || p.treatment.Flood? || source != p.senderIp then None
    else
      var index := Targeted(p, b);
      if index.Some? && index.value in s.captured then None else index
  }

  function Capture(s: Scheduler, p: Plan, b: seq<Byte>, source: nat, now: nat): Scheduler
    requires p.Valid()
  {
    var index := CapturedIndex(s, p, b, source);
    if index == None then s
    else
      var seen := s.(captured := s.captured + {index.value});
      if |s.tasks| + p.repeat > MAX_PENDING then seen.(errors := s.errors + 1)
      else seen.(capturedCount := s.capturedCount + 1, tasks := s.tasks + TasksFor(p, b, index.value, now, p.repeat))
  }

  /** The worker takes a send task only while nobody asked it to stop. */
  predicate CanTake(s: Scheduler, now: nat) {
    s.phase == Running && !s.stopRequested && s.tasks != [] && s.tasks[Earliest(s.tasks)].due <= now
  }

  function Take(s: Scheduler): Scheduler
    requires s.tasks != []
  {
    s.(tasks := Without(s.tasks, Earliest(s.tasks)))
  }

  function Begin(s: Scheduler): Scheduler {
    if s.phase == Scheduled && !s.stopRequested then s.(phase := Running) else s
  }

  /** Asking the worker to stop forgets what waits; captures continue until the worker has ended. */
  function RequestStop(s: Scheduler): Scheduler {
    s.(stopRequested := true, tasks := [], captured := {})
  }

  function FinishStop(s: Scheduler): Scheduler {
    s.(stopRequested := false, phase := Stopped)
  }

  /** The first of the send tasks that are due earliest. */
  function Earliest(tasks: seq<Task>): (i: nat)
    requires tasks != []
    ensures i < |tasks|
    ensures forall j :: 0 <= j < |tasks| ==> tasks[i].due <= tasks[j].due
    ensures forall j :: 0 <= j < i ==> tasks[i].due < tasks[j].due
  {
    if |tasks| == 1 then 0
    else
      var n := |tasks| - 1;
      var i := Earliest(tasks[..n]);
      if tasks[n].due < tasks[i].due then n else i
  }

  class AttackScheduler {
    var phase: Phase
    var stopRequested: bool
    var tasks: seq<Task>
    var captured: set<nat>
    var capturedCount: nat
    var sent: nat
    var errors: nat

    function State(): Scheduler
      reads this
    {
      Scheduler(phase, stopRequested, tasks, captured, capturedCount, sent, errors)
    }

    ghost predicate Valid()
      reads this
    {
      |tasks| <= MAX_PENDING
    }

    constructor ()
      ensures Valid() && State() == INITIAL_SCHEDULER
    {
      phase, stopRequested, tasks, captured, capturedCount, sent, errors := Scheduled, false, [], {}, 0, 0, 0;
    }

    method BeginExecution()
      requires Valid()
      modifies this
      ensures Valid() && State() == Begin(old(State()))
    {
      if phase == Scheduled && !stopRequested { phase := Running; }
    }

    method ProcessCapturedDatagram(p: Plan, b: seq<Byte>, source: nat, now: nat)
      requires Valid() && p.Valid()
      modifies this
      ensures Valid() && State() == Capture(old(State()), p, b, source, now)
    {
      if phase != Running || p.treatment.Flood? || source != p.senderIp { return; }
      if |b| < FIXED_HEADER_SIZE { return; }
      var reader := new BinaryReader(b);
      var chain := reader.ReadUint(8);
      var interval := reader.ReadUint(4);
      var index := reader.ReadUint(4);
      assert b[0..8] == b[..8];
      if chain.value == 0 || interval.value == 0 { return; }
      if chain.value != p.chainId || index.value == 0 { return; }
      hide BigEndian, FromBigEndian;
      var d := DecodePacket(b, p.context);
      if d.Err? { return; }
      if index.value !in p.targets { return; }
      var attack := b;
      if p.treatment.Tamper? {
        if |b| < MESSAGE_OFFSET + 32 { return; }
        var at := MESSAGE_OFFSET + p.treatment.offset;
        attack := attack[at := Xor(attack[at], p.treatment.mask)];
      }
      Schedule(p, b, attack, index.value, source, now);
    }

    /** Remembers the index and queues the repetitions, unless they do not all fit. */
    method Schedule(p: Plan, b: seq<Byte>, attack: seq<Byte>, index: nat, source: nat, now: nat)
      requires Valid() && p.Valid() && Targeted(p, b) == Some(index)
      requires phase == Running && !p.treatment.Flood? && source == p.senderIp
      requires (p.treatment.Tamper? ==> |b| >= MESSAGE_OFFSET + 32) && attack == Payload(p.treatment, b)
      modifies `tasks, `captured, `capturedCount, `errors
      ensures Valid() && State() == Capture(old(State()), p, b, source, now)
    {
      hide Targeted, Payload;
      if index in captured { return; }
      captured := captured + {index};
      if |tasks| + p.repeat > MAX_PENDING {
        errors := errors + 1;
        return;
      }
      capturedCount := capturedCount + 1;
      for i := 0 to p.repeat
        invariant tasks == old(tasks) + TasksFor(p, b, index, now, i)
        invariant captured == old(captured) + {index} && capturedCount == old(capturedCount) + 1
                  && errors == old(errors)
      {
        tasks := tasks + [Task(attack, b, index, now, DueTime(p.treatment, now, i))];
      }
    }

    /** Takes the send task that is due first, unless even that one is still in the future or a stop was requested. */
    method TakeDue(now: nat) returns (task: Option<Task>)
      requires Valid() && phase == Running && tasks != []
      modifies `tasks
      ensures Valid() && (task.Some? <==> old(CanTake(State(), now)))
      ensures task.Some? ==> task.value == old(tasks)[Earliest(old(tasks))] && State() == Take(old(State()))
      ensures task == None ==> State() == old(State())
    {
      if stopRequested { return None; }
      var best := 0;
      for i := 1 to |tasks|
        invariant best < i <= |tasks| && best == Earliest(tasks[..i])
      {
        assert tasks[..i + 1][..i] == tasks[..i];
        if tasks[i].due < tasks[best].due { best := i; }
      }
      assert tasks[..|tasks|] == tasks;
      if now < tasks[best].due { return None; }
      task := Some(tasks[best]);
      tasks := tasks[..best] + tasks[best + 1..];
    }

    method RecordSend(ok: bool)
      requires Valid()
      modifies this
      ensures Valid()
      ensures State() == old(State()).(sent := old(sent) + if ok then 1 else 0,
                                       errors := old(errors) + if ok then 0 else 1)
    {
      if ok { sent := sent + 1; } else { errors := errors + 1; }
    }

    /** The two halves of stopping: before the worker has ended, and after. */
    method AskWorkerToStop()
      modifies this
      ensures Valid() && State() == RequestStop(old(State()))
    {
      stopRequested, tasks, captured := true, [], {};
    }

    method WorkerEnded()
      requires Valid()
      modifies this
      ensures Valid() && State() == FinishStop(old(State()))
    {
      stopRequested, phase := false, Stopped;
    }
  }

  // ----- What a payload is -----

  /** A tampered payload is accepted by every receiver of the round as the same packet with exactly one message byte
      changed. */
  lemma TamperedPayload(p: Plan, b: seq<Byte>)
    requires p.Valid() && p.treatment.Tamper? && Targeted(p, b).Some?
    ensures |b| >= MESSAGE_OFFSET + 32 && Decode(b, p.context).Ok?
    ensures var original, received := Decode(b, p.context).value, Decode(Payload(p.treatment, b), p.context);
            var o := p.treatment.offset;
            && original.Data? && received == Ok(original.(message := received.value.message))
            && received.value.message == original.message[o := Xor(original.message[o], p.treatment.mask)]
            && received.value.message[o] != original.message[o]
  {
    var original := Decode(b, p.context).value;
    var o := p.treatment.offset;
    EncodeDecode(b, p.context);
    DataIndex(b, p.context);
    MessageByte(b, p.context, o);
    XorFlips(original.message[o], p.treatment.mask);
    TamperedMessage(b, p.context, o, Xor(original.message[o], p.treatment.mask));
    hide Decode, Wire, Xor;
  }

  lemma DataIndex(b: seq<Byte>, c: Context)
    requires c.Valid() && Decode(b, c).Ok? && FromBigEndian(b[12..16]) != 0
    ensures Decode(b, c).value.Data?
  {
    hide FromBigEndian, BigEndian, Context.ValidWithCap;
  }

  lemma MessageByte(b: seq<Byte>, c: Context, o: nat)
    requires c.Valid() && o < 32 && Decode(b, c).Ok? && Decode(b, c).value.Data?
    ensures |b| >= MESSAGE_OFFSET + 32 && b[MESSAGE_OFFSET + o] == Decode(b, c).value.message[o]
  {
    EncodeDecode(b, c);
    var p := Decode(b, c).value;
    hide Decode, Header, KeyBytes, DetailBytes;
    WireShape(p);
  }

  // ----- What is captured -----

  /** The data packet that a datagram holds for the round of the plan: of its chain, and one of its targets. */
  ghost predicate Holds(p: Plan, b: seq<Byte>, index: nat)
    requires p.context.Valid()
  {
    && Decode(b, p.context).Ok? && Decode(b, p.context).value.Data?
    && Decode(b, p.context).value.chainId == p.chainId && Decode(b, p.context).value.index == index
    && index in p.targets
  }

  lemma DecodedFields(b: seq<Byte>, c: Context)
    requires c.Valid() && Decode(b, c).Ok?
    ensures |b| >= FIXED_HEADER_SIZE && Decode(b, c).value.chainId == FromBigEndian(b[..8])
    ensures Decode(b, c).value.Disclosure? <==> FromBigEndian(b[12..16]) == 0
    ensures Decode(b, c).value.Data? ==> Decode(b, c).value.index == FromBigEndian(b[12..16]) && |b| >= 48
  {
    hide FromBigEndian, BigEndian, Context.ValidWithCap;
  }

  /** The byte-level filters find exactly the targeted packets of the chain. */
  lemma TargetedIff(p: Plan, b: seq<Byte>, index: nat)
    requires p.Valid()
    ensures Targeted(p, b) == Some(index) <==> Holds(p, b, index)
  {
    if Decode(b, p.context).Ok? { DecodedFields(b, p.context); }
    hide Decode, FromBigEndian, Context.ValidWithCap;
  }

  /** Repetition i of the packet that b holds. A replay repeats the datagram itself, first after the delay and then one
      gap later each time; a tampered copy is due at once, and receivers accept it as the same packet with exactly one
      other message byte. */
  ghost predicate IsRepetition(task: Task, p: Plan, i: nat)
    requires p.Valid()
  {
    && Holds(p, task.original, task.index) && !p.treatment.Flood?
    && (p.treatment.Replay? ==>
          task.payload == task.original && task.due == task.capturedAt + p.treatment.delay + i * p.treatment.gap)
    && (p.treatment.Tamper? ==>
          && task.due == task.capturedAt
          && var original, o := Decode(task.original, p.context).value, p.treatment.offset;
             var altered := Xor(original.message[o], p.treatment.mask);
             && altered != original.message[o]
             && Decode(task.payload, p.context) == Ok(original.(message := original.message[o := altered])))
  }

  lemma DueOf(t: Treatment, capturedAt: nat, i: nat)
    ensures t.Replay? ==> DueTime(t, capturedAt, i) == capturedAt + t.delay + i * t.gap
    ensures t.Tamper? ==> DueTime(t, capturedAt, i) == capturedAt
  {
  }

  lemma RepetitionOf(p: Plan, b: seq<Byte>, index: nat, now: nat, i: nat)
    requires p.Valid() && !p.treatment.Flood? && Targeted(p, b) == Some(index)
    requires p.treatment.Tamper? ==> |b| >= MESSAGE_OFFSET + 32
    ensures IsRepetition(Task(Payload(p.treatment, b), b, index, now, DueTime(p.treatment, now, i)), p, i)
  {
    TargetedIff(p, b, index);
    DueOf(p.treatment, now, i);
    if p.treatment.Tamper? { TamperedPayload(p, b); }
    hide Decode, Targeted, Xor, Context.ValidWithCap, DueTime;
  }

  /** A datagram of the sender's address that holds a targeted packet not yet captured. */
  ghost predicate IsCaptured(s: Scheduler, p: Plan, b: seq<Byte>, source: nat, index: nat)
    requires p.Valid()
  {
    s.phase == Running && !p.treatment.Flood? && source == p.senderIp && Holds(p, b, index) && index !in s.captured
  }

  /** The tasks were captured from b at the given time: one for each repetition, in order. */
  ghost predicate AreRepetitions(tasks: seq<Task>, p: Plan, b: seq<Byte>, index: nat, now: nat)
    requires p.Valid()
  {
    |tasks| == p.repeat &&
    forall i :: 0 <= i < |tasks| ==>
      tasks[i].original == b && tasks[i].index == index && tasks[i].capturedAt == now && IsRepetition(tasks[i], p, i)
  }

  lemma TargetedLength(p: Plan, b: seq<Byte>)
    requires p.Valid() && Targeted(p, b).Some? && p.treatment.Tamper?
    ensures |b| >= MESSAGE_OFFSET + 32
  {
  }

  lemma TasksAreRepetitions(p: Plan, b: seq<Byte>, index: nat, now: nat)
    requires p.Valid() && !p.treatment.Flood? && Targeted(p, b) == Some(index)
    requires p.treatment.Tamper? ==> |b| >= MESSAGE_OFFSET + 32
    ensures AreRepetitions(TasksFor(p, b, index, now, p.repeat), p, b, index, now)
  {
    assert p.treatment.Tamper? ==> p.treatment.offset < 32;
    hide Targeted, IsRepetition, Payload, DueTime, Plan.Valid;
    var tasks := TasksFor(p, b, index, now, p.repeat);
    forall i | 0 <= i < |tasks| ensures IsRepetition(tasks[i], p, i) { RepetitionOf(p, b, index, now, i); }
    hide TasksFor;
  }

  /** Exactly what a received datagram does: nothing unless it is captured; else its index is remembered, and its
      repetitions wait behind what already waits, or the capture counts as an error if they do not all fit. */
  lemma CaptureExactly(s: Scheduler, p: Plan, b: seq<Byte>, source: nat, now: nat, index: nat)
    requires p.Valid()
    ensures (forall i: nat :: !IsCaptured(s, p, b, source, i)) ==> Capture(s, p, b, source, now) == s
    ensures IsCaptured(s, p, b, source, index) ==>
              var t := Capture(s, p, b, source, now);
              && t.captured == s.captured + {index} && t.sent == s.sent
              && t.phase == s.phase && t.stopRequested == s.stopRequested
              && (|s.tasks| + p.repeat > 4096 ==>
                    t.tasks == s.tasks && t.capturedCount == s.capturedCount && t.errors == s.errors + 1)
              && (|s.tasks| + p.repeat <= 4096 ==>
                    && t.capturedCount == s.capturedCount + 1 && t.errors == s.errors
                    && |t.tasks| == |s.tasks| + p.repeat && s.tasks <= t.tasks
                    && AreRepetitions(t.tasks[|s.tasks|..], p, b, index, now))
  {
    TargetedIff(p, b, index);
    var found := CapturedIndex(s, p, b, source);
    if found.Some? {
      TargetedIff(p, b, found.value);
      TasksAreRepetitions(p, b, found.value, now) by { if p.treatment.Tamper? { TargetedLength(p, b); } }
      assert IsCaptured(s, p, b, source, found.value);
      assert |s.tasks| + p.repeat <= MAX_PENDING ==>
               Capture(s, p, b, source, now).tasks[|s.tasks|..] == TasksFor(p, b, found.value, now, p.repeat);
    }
    hide Targeted, AreRepetitions, TasksFor, Payload, DueTime, Plan.Valid;
  }

  // ----- The machine -----

  /** A send task that was taken: its number in the order of capture, when it was taken, and how many send tasks had
      been captured by then. */
  datatype Taken = Taken(task: Task, id: nat, at: nat, captured: nat)

  /** `inHand` is the send task taken but not yet sent. The rest is history: `rejected` counts captures that did not
      fit, `dropped` the send tasks and `forgotten` the captured indexes that a stop removed; `ids` numbers the waiting
      tasks, `log` lists what was taken. */
  datatype Machine = Machine(scheduler: Scheduler, inHand: Option<Task>, rejected: nat, dropped: nat, forgotten: nat,
                             ids: seq<nat>, nextId: nat, log: seq<Taken>)

  const INITIAL := Machine(INITIAL_SCHEDULER, None, 0, 0, 0, [], 0, [])

  datatype Step =
    | Begins
    | Captures(b: seq<Byte>, source: nat, now: nat)
    | Takes(now: nat)
    | Sends(ok: bool)
    | AsksToStop
    | Ends

  predicate Enabled(m: Machine, s: Step) {
    match s
    case Begins => true
    case Captures(_, _, _) => true
    case Takes(now) => m.inHand == None && CanTake(m.scheduler, now)
    case Sends(_) => m.inHand.Some?
    case AsksToStop => true
    case Ends => m.scheduler.stopRequested && m.inHand == None
  }

  /** Consecutive numbers. */
  function Numbers(first: nat, n: nat): (r: seq<nat>)
    ensures |r| == n && forall i :: 0 <= i < n ==> r[i] == first + i
  {
    seq(n, i requires 0 <= i < n => first + i)
  }

  function CaptureNext(m: Machine, p: Plan, b: seq<Byte>, source: nat, now: nat): Machine
    requires p.Valid()
  {
    var after := Capture(m.scheduler, p, b, source, now);
    var added := |after.tasks| - |m.scheduler.tasks|;
    m.(scheduler := after, rejected := m.rejected + (after.errors - m.scheduler.errors),
       ids := m.ids + Numbers(m.nextId, added), nextId := m.nextId + added)
  }

  /** Every waiting send task has a number (`IdsOk`). */
  function TakeNext(m: Machine, now: nat): Machine
    requires CanTake(m.scheduler, now)
  {
    var i := Earliest(m.scheduler.tasks);
    var task := m.scheduler.tasks[i];
    if i < |m.ids| then
      m.(inHand := Some(task), scheduler := Take(m.scheduler), ids := Without(m.ids, i),
         log := m.log + [Taken(task, m.ids[i], now, m.nextId)])
    else m
  }

  function Next(m: Machine, p: Plan, s: Step): Machine
    requires p.Valid() && Enabled(m, s)
  {
    match s
    case Begins => m.(scheduler := Begin(m.scheduler))
    case Captures(b, source, now) => CaptureNext(m, p, b, source, now)
    case Takes(now) => TakeNext(m, now)
    case Sends(ok) =>
      m.(inHand := None, scheduler := m.scheduler.(sent := m.scheduler.sent + if ok then 1 else 0,
                                                   errors := m.scheduler.errors + if ok then 0 else 1))
    case AsksToStop =>
      m.(scheduler := RequestStop(m.scheduler), dropped := m.dropped + |m.scheduler.tasks|,
         forgotten := m.forgotten + |m.scheduler.captured|, ids := [])
    case Ends => m.(scheduler := FinishStop(m.scheduler))
  }

  ghost predicate Inv(m: Machine, p: Plan) {
    var s := m.scheduler;
    && |s.tasks| <= MAX_PENDING && m.rejected <= s.errors
    && s.capturedCount + m.rejected == m.forgotten + |s.captured|
    && s.sent + (s.errors - m.rejected) + |s.tasks| + (if m.inHand.Some? then 1 else 0) + m.dropped ==
       s.capturedCount * p.repeat
    && (forall i :: 0 <= i < |s.tasks| ==> s.tasks[i].index in s.captured && s.tasks[i].index in p.targets)
    && (forall x :: x in s.captured ==> x in p.targets)
    && |m.ids| == |s.tasks|
  }

  lemma NextKeepsInv(m: Machine, p: Plan, s: Step)
    requires p.Valid() && Inv(m, p) && Enabled(m, s)
    ensures Inv(Next(m, p, s), p)
  {
    hide Targeted, Payload, Earliest, TasksFor, Context.ValidWithCap;
    if s.Captures? {
      CaptureKeepsInv(m, p, s.b, s.source, s.now);
    }
    hide CaptureNext;
  }

  lemma CaptureKeepsInv(m: Machine, p: Plan, b: seq<Byte>, source: nat, now: nat)
    requires p.Valid() && Inv(m, p)
    ensures Inv(CaptureNext(m, p, b, source, now), p)
  {
    hide Targeted, Payload, TasksFor, Context.ValidWithCap;
    TargetedIndex(p, b);
    assert (m.scheduler.capturedCount + 1) * p.repeat == m.scheduler.capturedCount * p.repeat + p.repeat;
  }

  lemma TargetedIndex(p: Plan, b: seq<Byte>)
    requires p.Valid()
    ensures Targeted(p, b).Some? ==> Targeted(p, b).value in p.targets
  {
  }

  ghost function Run(p: Plan, steps: seq<Step>): Option<Machine>
    requires p.Valid()
  {
    if steps == [] then Some(INITIAL)
    else
      var before := Run(p, steps[..|steps| - 1]);
      var s := steps[|steps| - 1];
      if before.Some? && Enabled(before.value, s) then Some(Next(before.value, p, s)) else None
  }

  /** In every run: at most 4096 tasks wait, every captured index is a target and was captured once since the last stop
      request, and each accepted capture is accounted for as sent, failed, pending, in hand or dropped by a stop. */
  lemma {:induction false} RunAccounts(p: Plan, steps: seq<Step>)
    requires p.Valid() && Run(p, steps).Some?
    ensures Inv(Run(p, steps).value, p)
  {
    hide Enabled, Next, Plan.Valid;
    if steps != [] {
      hide Inv;
      RunAccounts(p, steps[..|steps| - 1]);
      NextKeepsInv(Run(p, steps[..|steps| - 1]).value, p, steps[|steps| - 1]);
    }
  }

  // ----- The order of sending in a run -----

  /** x goes before a send task that was captured by the time x was taken: it is due earlier, or at the same time and
      was captured earlier. */
  ghost predicate GoesBefore(x: Taken, task: Task, id: nat) {
    id < x.captured ==> x.task.due <= task.due && (x.task.due == task.due ==> x.id < id)
  }

  ghost predicate Ascending(ids: seq<nat>) {
    forall i, j :: 0 <= i < j < |ids| ==> ids[i] < ids[j]
  }

  ghost predicate IdsOk(m: Machine) {
    |m.ids| == |m.scheduler.tasks| && (forall i :: 0 <= i < |m.ids| ==> m.ids[i] < m.nextId) && Ascending(m.ids)
  }

  /** Everything taken goes before what was taken later, and before what still waits. */
  ghost predicate InOrder(log: seq<Taken>) {
    forall i, j :: 0 <= i < j < |log| ==> GoesBefore(log[i], log[j].task, log[j].id)
  }

  ghost predicate BeforeWaiting(log: seq<Taken>, tasks: seq<Task>, ids: seq<nat>) {
    forall i, k :: 0 <= i < |log| && 0 <= k < |ids| && k < |tasks| ==> GoesBefore(log[i], tasks[k], ids[k])
  }

  ghost predicate LogOk(m: Machine) {
    && (forall i :: 0 <= i < |m.log| ==> m.log[i].captured <= m.nextId && m.log[i].task.due <= m.log[i].at)
    && InOrder(m.log) && BeforeWaiting(m.log, m.scheduler.tasks, m.ids)
  }

  lemma CaptureKeepsOrder(m: Machine, p: Plan, b: seq<Byte>, source: nat, now: nat)
    requires p.Valid() && IdsOk(m) && LogOk(m)
    ensures IdsOk(CaptureNext(m, p, b, source, now)) && LogOk(CaptureNext(m, p, b, source, now))
  {
    hide Targeted, CapturedIndex, Payload, TasksFor, Plan.Valid, Numbers;
    var t := CaptureNext(m, p, b, source, now);
    assert forall k :: 0 <= k < |m.ids| ==> t.ids[k] == m.ids[k] && t.scheduler.tasks[k] == m.scheduler.tasks[k];
    assert forall k :: |m.ids| <= k < |t.ids| ==> t.ids[k] >= m.nextId;
  }

  /** Where what is left was before something was taken out. */
  function Origin(i: nat, k: nat): nat {
    if k < i then k else k + 1
  }

  lemma WithoutAt<T>(s: seq<T>, i: nat, k: nat)
    requires i < |s| && k < |s| - 1
    ensures Without(s, i)[k] == s[Origin(i, k)]
  {
  }

  lemma WithoutAscending(ids: seq<nat>, i: nat, bound: nat)
    requires i < |ids| && Ascending(ids) && forall a :: 0 <= a < |ids| ==> ids[a] < bound
    ensures Ascending(Without(ids, i)) && forall a :: 0 <= a < |Without(ids, i)| ==> Without(ids, i)[a] < bound
  {
    var left := Without(ids, i);
    forall a: nat | a < |left| ensures left[a] == ids[Origin(i, a)] { WithoutAt(ids, i, a); }
    hide Without;
  }

  lemma EarliestGoesBefore(m: Machine, now: nat, k: nat)
    requires CanTake(m.scheduler, now) && IdsOk(m) && k < |m.ids| && k != Earliest(m.scheduler.tasks)
    ensures var i := Earliest(m.scheduler.tasks);
            GoesBefore(Taken(m.scheduler.tasks[i], m.ids[i], now, m.nextId), m.scheduler.tasks[k], m.ids[k])
  {
    var i := Earliest(m.scheduler.tasks);
    if k > i { assert m.ids[i] < m.ids[k]; }
  }

  lemma TakenStays(m: Machine, now: nat)
    requires CanTake(m.scheduler, now) && IdsOk(m) && LogOk(m)
    ensures BeforeWaiting(TakeNext(m, now).log, TakeNext(m, now).scheduler.tasks, TakeNext(m, now).ids)
  {
    var t := TakeNext(m, now);
    var e := Earliest(m.scheduler.tasks);
    hide Earliest, GoesBefore, Without, Origin, Ascending, InOrder;
    forall i, k | 0 <= i < |t.log| && 0 <= k < |t.ids| && k < |t.scheduler.tasks|
      ensures GoesBefore(t.log[i], t.scheduler.tasks[k], t.ids[k])
    {
      WithoutAt(m.ids, e, k);
      WithoutAt(m.scheduler.tasks, e, k);
      OriginOther(e, k, |m.ids|);
      if i == |m.log| { EarliestGoesBefore(m, now, Origin(e, k)); }
    }
  }

  lemma OriginOther(i: nat, k: nat, n: nat)
    requires i < n && k < n - 1
    ensures Origin(i, k) < n && Origin(i, k) != i
  {
  }

  lemma TakeKeepsOrder(m: Machine, now: nat)
    requires CanTake(m.scheduler, now) && IdsOk(m) && LogOk(m)
    ensures IdsOk(TakeNext(m, now)) && LogOk(TakeNext(m, now))
  {
    var t := TakeNext(m, now);
    var e := Earliest(m.scheduler.tasks);
    TakenStays(m, now);
    WithoutAscending(m.ids, e, m.nextId);
    hide Earliest, GoesBefore, Ascending, Without, BeforeWaiting;
    assert IdsOk(t);
    assert InOrder(t.log) by { TakenLast(m, e); }
  }

  lemma TakenLast(m: Machine, e: nat)
    requires e < |m.ids| == |m.scheduler.tasks| && InOrder(m.log) && BeforeWaiting(m.log, m.scheduler.tasks, m.ids)
    ensures forall x: Taken :: x.task == m.scheduler.tasks[e] && x.id == m.ids[e] ==> InOrder(m.log + [x])
  {
    hide GoesBefore;
  }

  lemma NextKeepsOrder(m: Machine, p: Plan, s: Step)
    requires p.Valid() && Enabled(m, s) && IdsOk(m) && LogOk(m)
    ensures IdsOk(Next(m, p, s)) && LogOk(Next(m, p, s))
  {
    hide CaptureNext, TakeNext, GoesBefore, Plan.Valid;
    if s.Captures? {
      CaptureKeepsOrder(m, p, s.b, s.source, s.now);
    } else if s.Takes? {
      TakeKeepsOrder(m, s.now);
    }
  }

  lemma {:induction false} RunKeepsOrder(p: Plan, steps: seq<Step>)
    requires p.Valid() && Run(p, steps).Some?
    ensures IdsOk(Run(p, steps).value) && LogOk(Run(p, steps).value)
  {
    hide Enabled, Next, Plan.Valid;
    if steps != [] {
      hide IdsOk, LogOk;
      RunKeepsOrder(p, steps[..|steps| - 1]);
      NextKeepsOrder(Run(p, steps[..|steps| - 1]).value, p, steps[|steps| - 1]);
    }
  }

  /** In every run, with captures, stops and sends in any interleaving, let x be taken before y. If y is due earlier
      than x, it was captured only after x was taken. If both are due at the same time and y was captured by then, x
      was captured first. And nothing is taken before its due time. */
  lemma SentInDueOrder(p: Plan, steps: seq<Step>, i: nat, j: nat)
    requires p.Valid() && Run(p, steps).Some? && i < j < |Run(p, steps).value.log|
    ensures var x, y := Run(p, steps).value.log[i], Run(p, steps).value.log[j];
            && (y.task.due < x.task.due ==> y.id >= x.captured)
            && (y.task.due == x.task.due && y.id < x.captured ==> x.id < y.id)
            && x.task.due <= x.at && y.task.due <= y.at
  {
    RunKeepsOrder(p, steps);
    hide Run, Plan.Valid;
    var m := Run(p, steps).value;
    assert GoesBefore(m.log[i], m.log[j].task, m.log[j].id);
  }

  // ----- What is sent in a run -----

  /** Each capture uses up `repeat` numbers, so the number of a send task tells which repetition it is. */
  ghost predicate IsGenuine(task: Task, p: Plan, id: nat)
    requires p.Valid()
  {
    IsRepetition(task, p, id % p.repeat)
  }

  ghost predicate Genuine(m: Machine, p: Plan)
    requires p.Valid()
  {
    && m.nextId == m.scheduler.capturedCount * p.repeat && |m.ids| == |m.scheduler.tasks|
    && (forall k :: 0 <= k < |m.ids| ==> IsGenuine(m.scheduler.tasks[k], p, m.ids[k]))
    && (forall k :: 0 <= k < |m.log| ==> IsGenuine(m.log[k].task, p, m.log[k].id))
    && (m.inHand.Some? ==> m.log != [] && m.inHand.value == m.log[|m.log| - 1].task)
  }

  lemma CaptureAppends(s: Scheduler, p: Plan, b: seq<Byte>, source: nat, now: nat)
    requires p.Valid()
    ensures var t := Capture(s, p, b, source, now);
            && s.tasks <= t.tasks
            && t.capturedCount * p.repeat == s.capturedCount * p.repeat + (|t.tasks| - |s.tasks|)
            && forall k: nat, i: nat :: k == |s.tasks| + i < |t.tasks| ==>
                 i < p.repeat && IsRepetition(t.tasks[k], p, i)
  {
    hide Plan.Valid, Targeted, IsRepetition, Holds;
    var t := Capture(s, p, b, source, now);
    var index := CapturedIndex(s, p, b, source);
    if index.Some? {
      TargetedIff(p, b, index.value);
      CaptureExactly(s, p, b, source, now, index.value);
      NextCount(s.capturedCount, p.repeat);
      if |t.tasks| > |s.tasks| {
        var added := t.tasks[|s.tasks|..];
        assert forall k: nat, i: nat :: k == |s.tasks| + i < |t.tasks| ==> t.tasks[k] == added[i];
      }
    }
    hide Capture;
  }

  lemma NextCount(count: nat, repeat: nat)
    ensures (count + 1) * repeat == count * repeat + repeat
  {
  }

  lemma CaptureIsGenuine(m: Machine, p: Plan, b: seq<Byte>, source: nat, now: nat)
    requires p.Valid() && Genuine(m, p)
    ensures Genuine(CaptureNext(m, p, b, source, now), p)
  {
    CaptureAppends(m.scheduler, p, b, source, now);
    hide Capture, IsRepetition, Plan.Valid;
    var t := CaptureNext(m, p, b, source, now);
    var n := |m.ids|;
    forall k | 0 <= k < |t.ids| ensures IsGenuine(t.scheduler.tasks[k], p, t.ids[k]) {
      if k < n {
        assert t.ids[k] == m.ids[k] && t.scheduler.tasks[k] == m.scheduler.tasks[k];
      } else {
        var i: nat := k - n;
        assert IsRepetition(t.scheduler.tasks[k], p, i);
        QuotientUnique(t.ids[k], p.repeat, m.scheduler.capturedCount, i);
      }
    }
  }

  lemma TakeIsGenuine(m: Machine, p: Plan, now: nat)
    requires p.Valid() && Genuine(m, p) && CanTake(m.scheduler, now) && m.inHand == None
    ensures Genuine(TakeNext(m, now), p)
  {
    hide IsGenuine, Plan.Valid, Without, Earliest;
    var t := TakeNext(m, now);
    var e := Earliest(m.scheduler.tasks);
    forall k: nat | k < |t.ids| ensures IsGenuine(t.scheduler.tasks[k], p, t.ids[k]) {
      WithoutAt(m.ids, e, k);
      WithoutAt(m.scheduler.tasks, e, k);
      OriginOther(e, k, |m.ids|);
    }
  }

  lemma NextIsGenuine(m: Machine, p: Plan, s: Step)
    requires p.Valid() && Enabled(m, s) && Genuine(m, p)
    ensures Genuine(Next(m, p, s), p)
  {
    hide CaptureNext, TakeNext, IsGenuine, Plan.Valid;
    if s.Captures? {
      CaptureIsGenuine(m, p, s.b, s.source, s.now);
    } else if s.Takes? {
      TakeIsGenuine(m, p, s.now);
    }
  }

  lemma {:induction false} RunIsGenuine(p: Plan, steps: seq<Step>)
    requires p.Valid() && Run(p, steps).Some?
    ensures Genuine(Run(p, steps).value, p)
  {
    hide Enabled, Next, Plan.Valid, IsGenuine;
    if steps != [] {
      hide Genuine;
      RunIsGenuine(p, steps[..|steps| - 1]);
      NextIsGenuine(Run(p, steps[..|steps| - 1]).value, p, steps[|steps| - 1]);
    }
  }

  /** In every run each send task that was taken is the repetition that its number says, of a targeted packet of the
      plan's chain: repetition i of a replay is the captured datagram itself and is not taken before the delay and i
      gaps have passed since its capture; a tampered copy decodes to the captured packet with one other message
      byte. */
  lemma TakenIsGenuine(p: Plan, steps: seq<Step>, k: nat)
    requires p.Valid() && Run(p, steps).Some? && k < |Run(p, steps).value.log|
    ensures var x := Run(p, steps).value.log[k];
            && IsRepetition(x.task, p, x.id % p.repeat)
            && (p.treatment.Replay? ==>
                  x.task.capturedAt + p.treatment.delay + (x.id % p.repeat) * p.treatment.gap <= x.at)
  {
    RunIsGenuine(p, steps);
    RunKeepsOrder(p, steps);
    hide Run, Plan.Valid, Holds;
  }

  // ----- Starting and stopping in a run -----

  lemma {:induction false} StoppedStays(p: Plan, before: seq<Step>, after: seq<Step>)
    requires p.Valid() && Run(p, before + [AsksToStop] + after).Some?
    ensures Run(p, before).Some?
    ensures var m := Run(p, before + [AsksToStop] + after).value;
            (m.scheduler.stopRequested || m.scheduler.phase == Stopped) && m.log == Run(p, before).value.log
  {
    hide Plan.Valid, Capture, Take;
    var steps := before + [AsksToStop] + after;
    if after == [] {
      assert steps[..|steps| - 1] == before && steps[|steps| - 1] == AsksToStop;
    } else {
      var n := |after| - 1;
      assert steps[..|steps| - 1] == before + [AsksToStop] + after[..n] && steps[|steps| - 1] == after[n];
      StoppedStays(p, before, after[..n]);
      CaptureKeepsPhase(Run(p, before + [AsksToStop] + after[..n]).value.scheduler, p, after[n]);
    }
  }

  lemma CaptureKeepsPhase(s: Scheduler, p: Plan, step: Step)
    requires p.Valid()
    ensures step.Captures? ==>
              var t := Capture(s, p, step.b, step.source, step.now);
              t.phase == s.phase && t.stopRequested == s.stopRequested
  {
    hide Targeted, TasksFor, Plan.Valid;
  }

  /** Once a stop was requested nothing more is taken, whatever follows. */
  lemma NothingTakenAfterStop(p: Plan, before: seq<Step>, after: seq<Step>)
    requires p.Valid() && Run(p, before + [AsksToStop] + after).Some?
    ensures Run(p, before).Some? && Run(p, before + [AsksToStop] + after).value.log == Run(p, before).value.log
    ensures forall now: nat :: !Enabled(Run(p, before + [AsksToStop] + after).value, Takes(now))
  {
    StoppedStays(p, before, after);
    hide Run, Plan.Valid;
  }

  /** The start time came before any stop request, and the worker has not ended. */
  ghost predicate Begun(steps: seq<Step>) {
    && Ends !in steps
    && exists i :: 0 <= i < |steps| && steps[i] == Begins && AsksToStop !in steps[..i]
  }

  /** A stop was requested and the worker has not ended since. */
  ghost predicate AskedToStop(steps: seq<Step>) {
    exists i :: 0 <= i < |steps| && steps[i] == AsksToStop && Ends !in steps[i..]
  }

  lemma BegunOneMore(steps: seq<Step>, s: Step)
    ensures Begun(steps + [s]) <==>
            s != Ends && (Begun(steps) || (s == Begins && Ends !in steps && AsksToStop !in steps))
  {
    var more, n := steps + [s], |steps|;
    assert more[n] == s && more[..n] == steps;
    if Begun(steps) {
      var i :| 0 <= i < n && steps[i] == Begins && AsksToStop !in steps[..i];
      assert more[i] == Begins && more[..i] == steps[..i];
    }
    if Begun(more) {
      var i :| 0 <= i < |more| && more[i] == Begins && AsksToStop !in more[..i];
      if i < n { assert steps[i] == Begins && more[..i] == steps[..i]; }
      assert forall x :: x in steps ==> x in more;
    }
  }

  lemma AskedOneMore(steps: seq<Step>, s: Step)
    ensures AskedToStop(steps + [s]) <==> s == AsksToStop || (s != Ends && AskedToStop(steps))
  {
    var more, n := steps + [s], |steps|;
    assert more[n] == s && more[n..] == [s];
    forall i | 0 <= i < n ensures Ends !in more[i..] <==> s != Ends && Ends !in steps[i..] {
      assert more[i..] == steps[i..] + [s];
    }
    assert forall i :: 0 <= i < n ==> more[i] == steps[i];
    if AskedToStop(steps) && s != Ends {
      var i :| 0 <= i < n && steps[i] == AsksToStop && Ends !in steps[i..];
      assert more[i] == AsksToStop && Ends !in more[i..];
    }
  }

  /** In every run the execution runs if and only if it began before any stop was requested and its worker has not
      ended, and a stop is pending if and only if one was requested since the worker last ended. */
  lemma {:induction false} PhaseIff(p: Plan, steps: seq<Step>)
    requires p.Valid() && Run(p, steps).Some?
    ensures Run(p, steps).value.scheduler.phase == Running <==> Begun(steps)
    ensures Run(p, steps).value.scheduler.phase == Stopped <==> Ends in steps
    ensures Run(p, steps).value.scheduler.stopRequested <==> AskedToStop(steps)
    ensures AsksToStop in steps ==> AskedToStop(steps) || Ends in steps
  {
    if steps != [] {
      hide Plan.Valid, Capture, Take, Begun, AskedToStop;
      var n := |steps| - 1;
      assert steps == steps[..n] + [steps[n]];
      PhaseIff(p, steps[..n]);
      BegunOneMore(steps[..n], steps[n]);
      AskedOneMore(steps[..n], steps[n]);
      CaptureKeepsPhase(Run(p, steps[..n]).value.scheduler, p, steps[n]);
    }
  }

  /** A send task is taken as soon as one is due, while the execution runs, nothing is in hand and no stop is
      pending. */
  lemma TakesIff(m: Machine, now: nat)
    ensures Enabled(m, Takes(now)) <==>
            && m.scheduler.phase == Running && !m.scheduler.stopRequested && m.inHand == None
            && exists k :: 0 <= k < |m.scheduler.tasks| && m.scheduler.tasks[k].due <= now
  {
  }

  // ----- The order of sending -----

  /** The order in which the worker sends what is pending when nothing new is captured. */
  function DrainOrder(tasks: seq<Task>): (order: seq<Task>)
    ensures |order| == |tasks|
    decreases |tasks|
  {
    if tasks == [] then [] else [tasks[Earliest(tasks)]] + DrainOrder(Without(tasks, Earliest(tasks)))
  }

  ghost predicate SortedByDue(s: seq<Task>) {
    forall i, j :: 0 <= i < j < |s| ==> s[i].due <= s[j].due
  }

  /** The send tasks of one due time, in their order. */
  function DueAt(s: seq<Task>, due: nat): seq<Task> {
    if s == [] then [] else (if s[0].due == due then [s[0]] else []) + DueAt(s[1..], due)
  }

  lemma {:induction false} DueAtAppend(a: seq<Task>, b: seq<Task>, due: nat)
    ensures DueAt(a + b, due) == DueAt(a, due) + DueAt(b, due)
  {
    if a == [] {
      assert a + b == b;
    } else {
      var head := if a[0].due == due then [a[0]] else [];
      assert DueAt(a, due) == head + DueAt(a[1..], due);
      assert DueAt(a + b, due) == head + DueAt(a[1..] + b, due) by { assert (a + b)[1..] == a[1..] + b; }
      hide DueAt;
      DueAtAppend(a[1..], b, due);
    }
  }

  lemma {:induction false} DueAtNone(s: seq<Task>, due: nat)
    requires forall i :: 0 <= i < |s| ==> s[i].due != due
    ensures DueAt(s, due) == []
  {
    if s != [] { DueAtNone(s[1..], due); }
  }

  lemma DueAtOne(t: Task, due: nat)
    ensures DueAt([t], due) == if t.due == due then [t] else []
  {
  }

  /** Taking the earliest send task out and putting it in front does not reorder tasks of equal due time. */
  lemma TakeOutStable(tasks: seq<Task>, due: nat)
    requires tasks != []
    ensures var i := Earliest(tasks); DueAt([tasks[i]] + Without(tasks, i), due) == DueAt(tasks, due)
  {
    hide DueAt, Earliest;
    var i := Earliest(tasks);
    var before, after := tasks[..i], tasks[i + 1..];
    assert tasks == before + ([tasks[i]] + after);
    DueAtAppend(before, [tasks[i]] + after, due);
    DueAtAppend([tasks[i]], after, due);
    DueAtAppend([tasks[i]], before + after, due);
    DueAtAppend(before, after, due);
    DueAtOne(tasks[i], due);
    if tasks[i].due == due { DueAtNone(before, due); }
  }

  /** The worker's order is the stable sort by due time: sorted, and for each due time exactly the pending tasks of that
      time in the order in which they were queued. */
  lemma {:induction false} DrainIsStableSort(tasks: seq<Task>)
    ensures SortedByDue(DrainOrder(tasks))
    ensures forall due: nat :: DueAt(DrainOrder(tasks), due) == DueAt(tasks, due)
    decreases |tasks|
  {
    if tasks != [] {
      var i := Earliest(tasks);
      var rest := Without(tasks, i);
      DrainIsStableSort(rest);
      forall due: nat ensures DueAt(DrainOrder(tasks), due) == DueAt(tasks, due) {
        TakeOutStable(tasks, due);
        DueAtAppend([tasks[i]], DrainOrder(rest), due);
        DueAtAppend([tasks[i]], rest, due);
      }
      DrainedNotEarlier(rest, tasks[i].due);
      assert DrainOrder(tasks) == [tasks[i]] + DrainOrder(rest);
    }
  }

  lemma {:induction false} DrainedNotEarlier(tasks: seq<Task>, due: nat)
    requires forall j :: 0 <= j < |tasks| ==> due <= tasks[j].due
    ensures forall j :: 0 <= j < |tasks| ==> due <= DrainOrder(tasks)[j].due
    decreases |tasks|
  {
    if tasks != [] { DrainedNotEarlier(Without(tasks, Earliest(tasks)), due); }
  }

  // ----- A whole execution -----

  lemma Extend(p: Plan, steps: seq<Step>, s: Step)
    requires p.Valid() && Run(p, steps).Some? && Enabled(Run(p, steps).value, s)
    ensures Run(p, steps + [s]) == Some(Next(Run(p, steps).value, p, s))
  {
    assert (steps + [s])[..|steps|] == steps;
  }

  /** The repetitions from number i on still wait, and those before it were taken and sent in order. */
  ghost predicate SentUpTo(m: Machine, tasks: seq<Task>, i: nat) {
    && i <= |tasks| && m.scheduler.phase == Running && !m.scheduler.stopRequested && m.inHand == None
    && m.scheduler.tasks == tasks[i..] && m.ids == Numbers(i, |tasks| - i)
    && m.scheduler.sent == i && |m.log| == i
    && forall k :: 0 <= k < i ==> m.log[k].task == tasks[k] && m.log[k].at == tasks[k].due
  }

  ghost predicate DueInOrder(tasks: seq<Task>) {
    forall i, j :: 0 <= i < j < |tasks| ==> tasks[i].due <= tasks[j].due
  }

  lemma FirstIsEarliest(tasks: seq<Task>)
    requires tasks != [] && DueInOrder(tasks)
    ensures Earliest(tasks) == 0
  {
    assert forall j :: 0 <= j < |tasks| ==> tasks[0].due <= tasks[j].due;
    hide Earliest;
  }

  lemma OneGoesOut(p: Plan, steps: seq<Step>, tasks: seq<Task>, i: nat) returns (more: seq<Step>)
    requires p.Valid() && Run(p, steps).Some? && SentUpTo(Run(p, steps).value, tasks, i) && i < |tasks|
    requires DueInOrder(tasks)
    ensures Run(p, more).Some? && SentUpTo(Run(p, more).value, tasks, i + 1) && steps <= more
  {
    hide Run, Plan.Valid, Earliest;
    var m := Run(p, steps).value;
    assert DueInOrder(tasks[i..]);
    FirstIsEarliest(tasks[i..]);
    Extend(p, steps, Takes(tasks[i].due));
    var taken := Run(p, steps + [Takes(tasks[i].due)]).value;
    assert taken.scheduler.tasks == tasks[i + 1..] && taken.ids == Numbers(i + 1, |tasks| - (i + 1));
    Extend(p, steps + [Takes(tasks[i].due)], Sends(true));
    more := steps + [Takes(tasks[i].due)] + [Sends(true)];
  }

  lemma {:induction false} AllGoOut(p: Plan, steps: seq<Step>, tasks: seq<Task>, i: nat) returns (more: seq<Step>)
    requires p.Valid() && Run(p, steps).Some? && SentUpTo(Run(p, steps).value, tasks, i) && DueInOrder(tasks)
    ensures Run(p, more).Some? && SentUpTo(Run(p, more).value, tasks, |tasks|) && steps <= more
    decreases |tasks| - i
  {
    hide Run, Plan.Valid;
    if i == |tasks| { return steps; }
    more := OneGoesOut(p, steps, tasks, i);
    more := AllGoOut(p, more, tasks, i + 1);
  }

  lemma RepetitionsInOrder(tasks: seq<Task>, p: Plan, b: seq<Byte>, index: nat, now: nat)
    requires p.Valid() && !p.treatment.Flood? && AreRepetitions(tasks, p, b, index, now)
    ensures DueInOrder(tasks)
  {
    forall i, j | 0 <= i < j < |tasks| ensures tasks[i].due <= tasks[j].due {
      assert IsRepetition(tasks[i], p, i) && IsRepetition(tasks[j], p, j);
      if p.treatment.Replay? { MulMonotone(i, p.treatment.gap, j, p.treatment.gap); }
    }
  }

  lemma FirstCapture(p: Plan, b: seq<Byte>, now: nat, index: nat) returns (tasks: seq<Task>)
    requires p.Valid() && !p.treatment.Flood? && p.repeat <= 4096 && Holds(p, b, index)
    ensures AreRepetitions(tasks, p, b, index, now)
    ensures var steps := [Begins] + [Captures(b, p.senderIp, now)];
            Run(p, steps).Some? && SentUpTo(Run(p, steps).value, tasks, 0)
  {
    assert Run(p, []) == Some(INITIAL);
    hide Run, Holds, Targeted, IsRepetition;
    Extend(p, [], Begins);
    assert [] + [Begins] == [Begins];
    var m := Run(p, [Begins]).value;
    CaptureExactly(m.scheduler, p, b, p.senderIp, now, index);
    Extend(p, [Begins], Captures(b, p.senderIp, now));
    tasks := Run(p, [Begins] + [Captures(b, p.senderIp, now)]).value.scheduler.tasks;
    assert tasks[0..] == tasks;
    hide Capture;
  }

  /** Every execution of a tamper or replay plan with at most 4096 repetitions that sees a targeted packet of the chain
      can send all its repetitions, in order and each at the time it is due. */
  lemma RepetitionsGoOut(p: Plan, b: seq<Byte>, now: nat, index: nat) returns (tasks: seq<Task>, steps: seq<Step>)
    requires p.Valid() && !p.treatment.Flood? && p.repeat <= 4096 && Holds(p, b, index)
    ensures AreRepetitions(tasks, p, b, index, now) && Run(p, steps).Some?
    ensures var m := Run(p, steps).value;
            && m.scheduler.sent == p.repeat == |m.log| && m.scheduler.tasks == []
            && forall k :: 0 <= k < |m.log| ==> m.log[k].task == tasks[k] && m.log[k].at == tasks[k].due
  {
    hide Run, Plan.Valid, Holds, IsRepetition;
    tasks := FirstCapture(p, b, now, index);
    RepetitionsInOrder(tasks, p, b, index, now);
    steps := AllGoOut(p, [Begins] + [Captures(b, p.senderIp, now)], tasks, 0);
  }

  /** Every execution can be stopped: what waits is forgotten, the send task in hand is still sent, and then it ends. */
  lemma StopEnds(p: Plan, steps: seq<Step>, ok: bool) returns (whole: seq<Step>)
    requires p.Valid() && Run(p, steps).Some?
    ensures steps + [AsksToStop] <= whole && Run(p, whole).Some?
    ensures var before, m := Run(p, steps).value, Run(p, whole).value;
            && m.scheduler.phase == Stopped && !m.scheduler.stopRequested && m.inHand == None
            && m.scheduler.tasks == [] && m.scheduler.captured == {} && m.log == before.log
            && m.dropped == before.dropped + |before.scheduler.tasks|
            && m.scheduler.sent == before.scheduler.sent + (if before.inHand.Some? && ok then 1 else 0)
            && m.scheduler.errors == before.scheduler.errors + (if before.inHand.Some? && !ok then 1 else 0)
  {
    hide Run, Plan.Valid;
    Extend(p, steps, AsksToStop);
    whole := steps + [AsksToStop];
    if Run(p, whole).value.inHand.Some? {
      Extend(p, whole, Sends(ok));
      whole := whole + [Sends(ok)];
    }
    Extend(p, whole, Ends);
    whole := whole + [Ends];
  }
}
