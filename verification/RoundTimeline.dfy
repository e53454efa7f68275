/** The manager's round timeline: logical intervals run in stretches of real time that pauses cut and resumes continue.
    Interval numbers are 32-bit, so an interval count that does not fit wraps. */
module RoundTimeline {
  import opened Bytes
  import opened Arithmetic

  const WRAP := UINT32_MAX + 1

  datatype TimelineError = NotReady | TooSoon | NotPausable | NearEnd | NotResumable | NotRunning | SendFailed

  datatype Command =
    | Start(at: nat, interval: nat)
    | Pause(at: nat, afterInterval: nat)
    | Resume(at: nat, interval: nat)
    | Stop

  datatype Timeline = Timeline(running: bool, paused: bool, start: nat, first: nat, pauseAfter: nat, pauseAt: nat)

  /** The whole number of intervals since the current stretch began. */
  function ElapsedIntervals(t: Timeline, length: nat, now: nat): nat
    requires length > 0
  {
    if now > t.start then Quo(now - t.start, length) else 0
  }

  function CurrentInterval(t: Timeline, length: nat, now: nat): nat
    requires length > 0
  {
    (t.first + Rem(ElapsedIntervals(t, length, now), WRAP)) % WRAP
  }

  function PausePoint(t: Timeline, length: nat, now: nat): nat
    requires length > 0
  {
    (CurrentInterval(t, length, now) + 1) % WRAP
  }

  function PauseTime(t: Timeline, length: nat, point: nat): nat {
    t.start + (point + WRAP - t.first % WRAP + 1) % WRAP * length
  }

  function Max(a: nat, b: nat): nat {
    if a >= b then a else b
  }

  function ResumeTime(t: Timeline, now: nat): nat {
    Max(now + 2000, t.pauseAt + 2000)
  }

  // ----- Commands -----

  datatype Outcome = Outcome(after: Timeline, error: Option<TimelineError>)

  function StartAt(t: Timeline, ready: bool, at: nat, now: nat, sent: bool): Outcome {
    if !ready || t.running then Outcome(t, Some(NotReady))
    else if at <= now + 100 then Outcome(t, Some(TooSoon))
    else
      var begun := t.(start := at, first := 1, pauseAfter := 0, pauseAt := 0);
      if sent then Outcome(begun.(running := true, paused := false), None) else Outcome(begun, Some(SendFailed))
  }

  function PauseNow(t: Timeline, length: nat, last: nat, now: nat, sent: bool): Outcome
    requires length > 0
  {
    if !t.running || t.paused then Outcome(t, Some(NotPausable))
    else
      var point := PausePoint(t, length, now);
      if point >= last then Outcome(t, Some(NearEnd))
      else if !sent then Outcome(t, Some(SendFailed))
      else Outcome(t.(paused := true, pauseAfter := point, pauseAt := PauseTime(t, length, point)), None)
  }

  function ResumeNow(t: Timeline, now: nat, sent: bool): Outcome {
    if !t.running || !t.paused || t.pauseAfter == 0 then Outcome(t, Some(NotResumable))
    else if !sent then Outcome(t, Some(SendFailed))
    else Outcome(t.(first := (t.pauseAfter + 1) % WRAP, start := ResumeTime(t, now), paused := false), None)
  }

  function StopNow(t: Timeline, sent: bool): Outcome {
    if !t.running then Outcome(t, Some(NotRunning))
    else if !sent then Outcome(t, Some(SendFailed))
    else Outcome(t.(running := false, paused := false), None)
  }

  class RoundTimeline {
    const length: nat
    const last: nat
    var running: bool
    var paused: bool
    var start: nat
    var first: nat
    var pauseAfter: nat
    var pauseAt: nat
    var commands: seq<Command>

    function State(): Timeline
      reads this
    {
      Timeline(running, paused, start, first, pauseAfter, pauseAt)
    }

    ghost predicate Valid()
      reads this
    {
      length > 0 && last <= UINT32_MAX && first <= UINT32_MAX && pauseAfter <= UINT32_MAX
    }

    constructor (length: nat, last: nat)
      requires length > 0 && last <= UINT32_MAX
      ensures Valid() && this.length == length && this.last == last
      ensures State() == Timeline(false, false, 0, 0, 0, 0) && commands == []
    {
      this.length, this.last := length, last;
      running, paused, start, first, pauseAfter, pauseAt, commands := false, false, 0, 0, 0, 0, [];
    }

    method StartRoundAt(ready: bool, at: nat, now: nat, sent: bool) returns (error: Option<TimelineError>)
      requires Valid()
      modifies this
      ensures Valid() && Outcome(State(), error) == StartAt(old(State()), ready, at, now, sent)
      ensures commands == old(commands) + if error == None then [Start(at, 1)]
                                          else if error == Some(SendFailed) then [Start(at, 1), Stop] else []
    {
      if !ready || running { return Some(NotReady); }
      if at <= now + 100 { return Some(TooSoon); }
      start, first, pauseAfter, pauseAt := at, 1, 0, 0;
      commands := commands + [Start(at, 1)];
      if !sent {
        commands := commands + [Stop];
        return Some(SendFailed);
      }
      running, paused := true, false;
      error := None;
    }

    method PauseRound(now: nat, sent: bool) returns (error: Option<TimelineError>)
      requires Valid()
      modifies this
      ensures Valid() && Outcome(State(), error) == PauseNow(old(State()), length, last, now, sent)
      ensures commands == old(commands) + if error == None then [Pause(pauseAt, pauseAfter)] else []
    {
      if !running || paused { return Some(NotPausable); }
      var elapsed := if now > start then now - start else 0;
      QuotientBelow(0, length, 1);
      assert Quo(0, length) == 0;
      var current := (first + Rem(Quo(elapsed, length), WRAP)) % WRAP;
      var point := (current + 1) % WRAP;
      if point >= last { return Some(NearEnd); }
      if !sent { return Some(SendFailed); }
      pauseAfter := point;
      pauseAt := PauseTime(State(), length, point);
      commands := commands + [Pause(pauseAt, pauseAfter)];
      paused := true;
      error := None;
    }

    method ResumeRound(now: nat, sent: bool) returns (error: Option<TimelineError>)
      requires Valid()
      modifies this
      ensures Valid() && Outcome(State(), error) == ResumeNow(old(State()), now, sent)
      ensures commands == old(commands) + if error == None then [Resume(start, first)] else []
    {
      if !running || !paused || pauseAfter == 0 { return Some(NotResumable); }
      var next := (pauseAfter + 1) % WRAP;
      var at := ResumeTime(State(), now);
      if !sent { return Some(SendFailed); }
      commands := commands + [Resume(at, next)];
      first, start, paused := next, at, false;
      error := None;
    }

    method StopRound(sent: bool) returns (error: Option<TimelineError>)
      requires Valid()
      modifies this
      ensures Valid() && Outcome(State(), error) == StopNow(old(State()), sent)
      ensures commands == old(commands) + if error == None then [Stop] else []
    {
      if !running { return Some(NotRunning); }
      if !sent { return Some(SendFailed); }
      commands := commands + [Stop];
      running, paused := false, false;
      error := None;
    }
  }

  // ----- One pause -----

  lemma ElapsedBounds(t: Timeline, length: nat, now: nat)
    requires length > 0
    ensures now < t.start + (ElapsedIntervals(t, length, now) + 1) * length
    ensures now > t.start ==> t.start + ElapsedIntervals(t, length, now) * length <= now
    ensures now <= t.start ==> ElapsedIntervals(t, length, now) == 0
  {
    if now > t.start {
      Division(now - t.start, length);
      AddOneProduct(ElapsedIntervals(t, length, now), length);
      hide Quo, Rem;
      assert length * Quo(now - t.start, length) == Quo(now - t.start, length) * length;
    }
  }

  /** The pause point and time in plain arithmetic, as long as nothing wraps. */
  lemma PauseWithoutWrap(t: Timeline, length: nat, now: nat)
    requires length > 0 && 0 < t.first && t.first + ElapsedIntervals(t, length, now) + 1 < WRAP
    ensures PausePoint(t, length, now) == t.first + ElapsedIntervals(t, length, now) + 1
    ensures PauseTime(t, length, PausePoint(t, length, now)) == t.start
            + (ElapsedIntervals(t, length, now) + 2) * length
  {
    var k := ElapsedIntervals(t, length, now);
    SmallRem(k);
    SmallRem(t.first + k);
    SmallRem(t.first + k + 1);
    hide Quo, Rem, ElapsedIntervals;
    WrapTwice(t.first, k);
  }

  lemma SmallRem(k: nat)
    requires k < WRAP
    ensures Rem(k, WRAP) == k && k % WRAP == k
  {
  }

  lemma WrapTwice(first: nat, k: nat)
    requires first + k + 1 < WRAP
    ensures (first + k + 1 + WRAP - first % WRAP + 1) % WRAP == (k + 2) % WRAP
    ensures 0 < first ==> (first + k + 1 + WRAP - first % WRAP + 1) % WRAP == k + 2
  {
  }

  lemma Doubled(k: nat, length: nat)
    ensures (k + 2) * length == (k + 1) * length + length
  {
  }

  /** The pause point whatever was truncated. */
  lemma PausePointValue(t: Timeline, length: nat, now: nat, r: nat)
    requires length > 0 && 0 < t.first < WRAP && r == Rem(ElapsedIntervals(t, length, now), WRAP)
    ensures t.first + r + 1 >= WRAP ==> PausePoint(t, length, now) <= t.first
    ensures t.first + r + 1 < WRAP ==> PausePoint(t, length, now) == t.first + r + 1
  {
    hide ElapsedIntervals, Rem, Quo;
  }

  /** A count that no longer fits comes back as its remainder, a full 32-bit range too small. */
  lemma TruncatedCount(t: Timeline, length: nat, now: nat, r: nat)
    requires length > 0 && 0 < t.first && r == Rem(ElapsedIntervals(t, length, now), WRAP) && t.first + r + 1 < WRAP
    requires ElapsedIntervals(t, length, now) >= WRAP
    ensures PauseTime(t, length, t.first + r + 1) <= now
  {
    var k := ElapsedIntervals(t, length, now);
    hide ElapsedIntervals, Quo, Rem, PauseTime;
    ElapsedBounds(t, length, now);
    assert r + 2 <= k;
    assert PauseTime(t, length, t.first + r + 1) == t.start + (r + 2) * length by { PauseTimeValue(t, length, r); }
    MulMonotone(r + 2, length, k, length);
  }

  lemma PauseTimeValue(t: Timeline, length: nat, r: nat)
    requires 0 < t.first && t.first + r + 1 < WRAP
    ensures PauseTime(t, length, t.first + r + 1) == t.start + (r + 2) * length
  {
    WrapTwice(t.first, r);
  }

  /** An accepted pause cuts the stretch after its first interval and more than one interval ahead of the clock
      if and only if the interval it lands on fits in 32 bits. */
  lemma PauseSoundIff(t: Timeline, length: nat, last: nat, now: nat, sent: bool)
    requires length > 0 && 0 < t.first < WRAP && last < WRAP
    requires PauseNow(t, length, last, now, sent).error == None
    ensures var after := PauseNow(t, length, last, now, sent).after;
            after.pauseAfter > t.first && after.pauseAt > now + length <==>
            t.first + ElapsedIntervals(t, length, now) + 1 < WRAP
  {
    var k := ElapsedIntervals(t, length, now);
    var r := Rem(k, WRAP);
    PausePointValue(t, length, now, r);
    if t.first + k + 1 < WRAP {
      SmallRem(k);
      PauseTimeValue(t, length, r);
      ElapsedBounds(t, length, now);
      Doubled(k, length);
    } else if k < WRAP {
      SmallRem(k);
    } else if t.first + r + 1 < WRAP {
      TruncatedCount(t, length, now, r);
    }
    hide ElapsedIntervals, Quo, Rem, PausePoint, PauseTime;
  }

  /** A round of ten one-millisecond intervals, still waiting for a result 2^32 milliseconds after its start: a pause is
      accepted, after interval 2 and for an instant that has long passed. */
  lemma PauseInThePast()
    ensures var begun := StartAt(Timeline(false, false, 0, 0, 0, 0), true, 1000, 0, true);
            var now := 1000 + WRAP;
            var paused := PauseNow(begun.after, 1, 10, now, true);
            && begun.error == None && paused.error == None
            && paused.after.pauseAfter == 2 && paused.after.pauseAt == 1002 < now
  {
    DivisionUnique(WRAP, 1, WRAP, 0);
    DivisionUnique(WRAP, WRAP, 1, 0);
    hide Quo, Rem;
  }

  // ----- What a command does -----

  /** A round starts if and only if it may, none runs, the start is more than 100 ms ahead and everyone was told. It
      starts with interval 1; a start that was not sent to everyone leaves no round running. */
  lemma StartExactly(t: Timeline, ready: bool, at: nat, now: nat, sent: bool)
    ensures var o := StartAt(t, ready, at, now, sent);
            && (o.error == Some(NotReady) <==> !ready || t.running)
            && (o.error == Some(TooSoon) <==> ready && !t.running && at <= now + 100)
            && (o.error == Some(SendFailed) <==> ready && !t.running && at > now + 100 && !sent)
            && (o.error == None <==> ready && !t.running && at > now + 100 && sent)
            && (o.error == None ==> o.after == Timeline(true, false, at, 1, 0, 0))
            && (o.error == Some(SendFailed) ==> !o.after.running && o.after.paused == t.paused)
            && (o.error in {Some(NotReady), Some(TooSoon)} ==> o.after == t)
  {
  }

  /** The number of whole intervals since the stretch began, as a caller computes it. */
  function Whole(t: Timeline, length: nat, now: nat): (k: int)
    requires length > 0
    ensures k >= 0
  {
    QuotientNat(if now > t.start then now - t.start else 0, length);
    (if now > t.start then now - t.start else 0) / length
  }

  /** A running round that is not paused can be paused after the next interval, if that is not the last one: intervals
      up to there run to their end. */
  lemma PauseExactly(t: Timeline, length: nat, last: nat, now: nat, sent: bool)
    requires length > 0 && 0 < t.first && last < WRAP && t.first + Whole(t, length, now) + 1 < WRAP
    ensures var o, point := PauseNow(t, length, last, now, sent), t.first + Whole(t, length, now) + 1;
            && (o.error == Some(NotPausable) <==> !t.running || t.paused)
            && (o.error == Some(NearEnd) <==> t.running && !t.paused && point >= last)
            && (o.error == Some(SendFailed) <==> t.running && !t.paused && point < last && !sent)
            && (o.error == None <==> t.running && !t.paused && point < last && sent)
            && (o.error != None ==> o.after == t)
            && (o.error == None ==>
                  && o.after.pauseAfter == point && o.after.pauseAt == t.start + (point + 1 - t.first) * length
                  && o.after == t.(paused := true, pauseAfter := point, pauseAt := o.after.pauseAt))
  {
    QuotientNat(0, length);
    assert ElapsedIntervals(t, length, now) == Whole(t, length, now);
    PauseWithoutWrap(t, length, now);
    hide Quo, Rem, Whole, ElapsedIntervals, PausePoint, PauseTime;
  }

  /** A paused round continues with the interval after the pause point, two seconds after the later of now and the
      pause. */
  lemma ResumeExactly(t: Timeline, now: nat, sent: bool)
    requires t.pauseAfter + 1 < WRAP
    ensures var o := ResumeNow(t, now, sent);
            && (o.error == Some(NotResumable) <==> !t.running || !t.paused || t.pauseAfter == 0)
            && (o.error == Some(SendFailed) <==> t.running && t.paused && t.pauseAfter != 0 && !sent)
            && (o.error == None <==> t.running && t.paused && t.pauseAfter != 0 && sent)
            && (o.error != None ==> o.after == t)
            && (o.error == None ==>
                  && o.after == t.(first := t.pauseAfter + 1, start := o.after.start, paused := false)
                  && o.after.start >= now + 2000 && o.after.start >= t.pauseAt + 2000
                  && (o.after.start == now + 2000 || o.after.start == t.pauseAt + 2000))
  {
  }

  lemma StopExactly(t: Timeline, sent: bool)
    ensures var o := StopNow(t, sent);
            && (o.error == Some(NotRunning) <==> !t.running)
            && (o.error == Some(SendFailed) <==> t.running && !sent)
            && o.after == if t.running && sent then t.(running := false, paused := false) else t
  {
  }

  // ----- A whole round -----

  /** A finished stretch: intervals first..last, one after another from `start`. */
  datatype Stretch = Stretch(first: nat, last: nat, start: nat)

  function WindowStart(s: Stretch, length: nat, interval: nat): nat
    requires s.first <= interval
  {
    s.start + (interval - s.first) * length
  }

  function WindowEnd(s: Stretch, length: nat, interval: nat): nat
    requires s.first <= interval
  {
    WindowStart(s, length, interval) + length
  }

  datatype Action = DoStart(at: nat, now: nat) | DoPause(now: nat) | DoResume(now: nat) | DoStop

  datatype Round = Round(timeline: Timeline, finished: seq<Stretch>)

  function Act(r: Round, length: nat, last: nat, a: Action): Outcome
    requires length > 0
  {
    match a
    case DoStart(at, now) => StartAt(r.timeline, true, at, now, true)
    case DoPause(now) => PauseNow(r.timeline, length, last, now, true)
    case DoResume(now) => ResumeNow(r.timeline, now, true)
    case DoStop => StopNow(r.timeline, true)
  }

  /** An accepted command; a pause must fit in 32 bits, which is exactly when it is sound. */
  predicate Accepted(r: Round, length: nat, last: nat, a: Action)
    requires length > 0
  {
    && Act(r, length, last, a).error == None
    && (a.DoPause? ==> r.timeline.first + ElapsedIntervals(r.timeline, length, a.now) + 1 < WRAP)
  }

  function Advance(r: Round, length: nat, last: nat, a: Action): Round
    requires length > 0
  {
    var t := Act(r, length, last, a).after;
    Round(t, if a.DoStart? then []
             else if a.DoPause? then r.finished + [Stretch(r.timeline.first, t.pauseAfter, r.timeline.start)]
             else r.finished)
  }

  /** The next stretch continues with the next interval, at least two seconds after the previous one ended. */
  ghost predicate Follows(s: Stretch, first: nat, start: nat, length: nat) {
    s.first <= s.last && first == s.last + 1 && start >= WindowEnd(s, length, s.last) + 2000
  }

  ghost predicate Chained(stretches: seq<Stretch>, length: nat) {
    && (stretches != [] ==> stretches[0].first == 1)
    && (forall i :: 0 <= i < |stretches| ==> stretches[i].first <= stretches[i].last)
    && (forall i, j :: 0 <= i < |stretches| && j == i + 1 < |stretches| ==>
          Follows(stretches[i], stretches[j].first, stretches[j].start, length))
  }

  /** A pause never closes a stretch within its first interval. */
  ghost predicate Long(stretches: seq<Stretch>) {
    forall i :: 0 <= i < |stretches| ==> stretches[i].first < stretches[i].last
  }

  /** Where the stretch after the finished ones may begin. */
  ghost predicate MayBegin(finished: seq<Stretch>, first: nat, start: nat, length: nat) {
    if finished == [] then first == 1 else Follows(finished[|finished| - 1], first, start, length)
  }

  ghost predicate PausedAt(t: Timeline, s: Stretch, length: nat) {
    s.first < s.last && t.pauseAfter == s.last && t.pauseAt == WindowEnd(s, length, s.last)
  }

  ghost predicate Inv(r: Round, length: nat, last: nat) {
    var t := r.timeline;
    t.running ==>
      && Chained(r.finished, length) && Long(r.finished)
      && 0 < t.first < WRAP
      && (forall i :: 0 <= i < |r.finished| ==> r.finished[i].last < last)
      && (t.paused ==> r.finished != [] && PausedAt(t, r.finished[|r.finished| - 1], length))
      && (!t.paused ==> MayBegin(r.finished, t.first, t.start, length))
  }

  lemma ChainedAppend(finished: seq<Stretch>, s: Stretch, length: nat)
    requires Chained(finished, length) && MayBegin(finished, s.first, s.start, length) && s.first <= s.last
    ensures Chained(finished + [s], length)
  {
    hide Follows;
  }

  /** An accepted pause closes the current stretch at the pause point. */
  lemma PauseCloses(t: Timeline, length: nat, last: nat, now: nat)
    requires length > 0 && 0 < t.first && PauseNow(t, length, last, now, true).error == None
    requires t.first + ElapsedIntervals(t, length, now) + 1 < WRAP
    ensures var after := PauseNow(t, length, last, now, true).after;
            && after == t.(paused := true, pauseAfter := after.pauseAfter, pauseAt := after.pauseAt)
            && after.pauseAfter < last && PausedAt(after, Stretch(t.first, after.pauseAfter, t.start), length)
  {
    PauseWithoutWrap(t, length, now);
    var k := ElapsedIntervals(t, length, now);
    hide ElapsedIntervals, PausePoint, PauseTime;
    Doubled(k, length);
  }

  lemma AdvanceKeepsInv(r: Round, length: nat, last: nat, a: Action)
    requires length > 0 && last < WRAP && Inv(r, length, last) && Accepted(r, length, last, a)
    ensures Inv(Advance(r, length, last, a), length, last)
  {
    if a.DoPause? {
      PauseCloses(r.timeline, length, last, a.now);
      hide PauseNow, ElapsedIntervals, WindowEnd;
      var s := Stretch(r.timeline.first, Advance(r, length, last, a).timeline.pauseAfter, r.timeline.start);
      ChainedAppend(r.finished, s, length);
    }
    hide PauseNow, ElapsedIntervals, WindowEnd;
  }

  ghost predicate Run(actions: seq<Action>, length: nat, last: nat, r: Round)
    requires length > 0
    decreases |actions|
  {
    if actions == [] then r == Round(Timeline(false, false, 0, 0, 0, 0), [])
    else
      var n := |actions| - 1;
      exists before :: Run(actions[..n], length, last, before) && Accepted(before, length, last, actions[n])
                       && r == Advance(before, length, last, actions[n])
  }

  /** Which commands the round takes: a start when none runs, a pause before the last interval while it is not paused, a
      resume while it is, and a stop while it runs. */
  lemma AcceptedIff(r: Round, length: nat, last: nat, a: Action)
    requires length > 0 && last < WRAP && Inv(r, length, last)
    ensures Accepted(r, length, last, a) <==>
            match a
            case DoStart(at, now) => !r.timeline.running && at > now + 100
            case DoPause(now) =>
              r.timeline.running && !r.timeline.paused && r.timeline.first + Whole(r.timeline, length, now) + 1 < last
            case DoResume(_) => r.timeline.running && r.timeline.paused
            case DoStop => r.timeline.running
  {
    if a.DoPause? {
      QuotientNat(0, length);
      assert ElapsedIntervals(r.timeline, length, a.now) == Whole(r.timeline, length, a.now);
      if r.timeline.running && r.timeline.first + Whole(r.timeline, length, a.now) + 1 < WRAP {
        PauseExactly(r.timeline, length, last, a.now, true);
      }
      hide Whole, ElapsedIntervals, PauseNow, Inv;
    }
  }

  lemma {:induction false} RunKeepsInv(actions: seq<Action>, length: nat, last: nat, r: Round)
    requires length > 0 && last < WRAP && Run(actions, length, last, r)
    ensures Inv(r, length, last)
    decreases |actions|
  {
    hide Accepted, Advance;
    if actions != [] {
      var n := |actions| - 1;
      hide Inv;
      var before :| Run(actions[..n], length, last, before) && Accepted(before, length, last, actions[n])
                    && r == Advance(before, length, last, actions[n]);
      RunKeepsInv(actions[..n], length, last, before);
      AdvanceKeepsInv(before, length, last, actions[n]);
    }
  }

  // ----- What every run guarantees -----

  lemma {:induction false} StretchesApart(stretches: seq<Stretch>, length: nat, i: nat, j: nat)
    requires length > 0 && Chained(stretches, length) && i < j < |stretches|
    ensures stretches[i].last < stretches[j].first
    ensures WindowEnd(stretches[i], length, stretches[i].last) + 2000 <= stretches[j].start
    decreases j
  {
    assert Follows(stretches[j - 1], stretches[j].first, stretches[j].start, length);
    if i < j - 1 {
      StretchesApart(stretches, length, i, j - 1);
      var s := stretches[j - 1];
      MulMonotone(0, 0, s.last - s.first, length);
    }
  }

  lemma WindowInside(s: Stretch, length: nat, a: nat, b: nat)
    requires s.first <= a <= b
    ensures WindowStart(s, length, a) <= WindowStart(s, length, b) && s.start <= WindowStart(s, length, a)
    ensures a < b ==> WindowEnd(s, length, a) <= WindowStart(s, length, b)
  {
    MulMonotone(0, 0, a - s.first, length);
    MulMonotone(a - s.first, length, b - s.first, length);
    if a < b {
      MulMonotone(a - s.first + 1, length, b - s.first, length);
      AddOneProduct(a - s.first, length);
    }
  }

  /** All that is scheduled: the finished stretches and, while the round runs on, one more up to its last interval. */
  function Schedule(r: Round, last: nat): seq<Stretch> {
    var t := r.timeline;
    r.finished + if t.running && !t.paused then [Stretch(t.first, last, t.start)] else []
  }

  /** The last interval that is scheduled so far. */
  function ScheduledUpTo(r: Round, last: nat): nat {
    if r.timeline.paused then r.timeline.pauseAfter else last
  }

  lemma ScheduleChained(actions: seq<Action>, length: nat, last: nat, r: Round)
    requires length > 0 && 0 < last < WRAP && Run(actions, length, last, r) && r.timeline.running
    ensures var s := Schedule(r, last);
            Chained(s, length) && s != [] && s[|s| - 1].last == ScheduledUpTo(r, last)
  {
    RunKeepsInv(actions, length, last, r);
    hide Run, WindowEnd;
    var t := r.timeline;
    if !t.paused { ChainedAppend(r.finished, Stretch(t.first, last, t.start), length); }
  }

  /** Scheduled intervals never overlap in real time and run in order, in every run and up to the end of the round: an
      earlier interval's window ends before a later interval's begins, whichever stretches they are in. */
  lemma WindowsOrdered(actions: seq<Action>, length: nat, last: nat, r: Round, i: nat, j: nat, a: nat, b: nat)
    requires length > 0 && 0 < last < WRAP && Run(actions, length, last, r) && r.timeline.running
    requires i < |Schedule(r, last)| && j < |Schedule(r, last)| && a < b
    requires Schedule(r, last)[i].first <= a <= Schedule(r, last)[i].last
    requires Schedule(r, last)[j].first <= b <= Schedule(r, last)[j].last
    ensures WindowEnd(Schedule(r, last)[i], length, a) <= WindowStart(Schedule(r, last)[j], length, b)
  {
    ScheduleChained(actions, length, last, r);
    var s := Schedule(r, last);
    hide Run, Schedule, ScheduledUpTo;
    if i == j {
      WindowInside(s[i], length, a, b);
    } else if i < j {
      StretchesApart(s, length, i, j);
      WindowInside(s[i], length, a, s[i].last);
      WindowInside(s[j], length, b, b);
    } else {
      StretchesApart(s, length, j, i);
    }
  }

  /** Every interval of the round (up to the pause point, while it is paused) is scheduled in exactly one stretch: none
      is skipped or repeated. */
  lemma ScheduledOnce(actions: seq<Action>, length: nat, last: nat, r: Round, interval: nat) returns (i: nat)
    requires length > 0 && 0 < last < WRAP && Run(actions, length, last, r) && r.timeline.running
    requires 1 <= interval <= ScheduledUpTo(r, last)
    ensures var s := Schedule(r, last);
            && i < |s| && s[i].first <= interval <= s[i].last
            && forall j: nat :: j < |s| && s[j].first <= interval <= s[j].last ==> j == i
  {
    ScheduleChained(actions, length, last, r);
    var s := Schedule(r, last);
    hide Run, Schedule, ScheduledUpTo;
    i := StretchOf(s, length, interval);
    forall j: nat | j < |s| && s[j].first <= interval <= s[j].last ensures j == i {
      if j < i { StretchesApart(s, length, j, i); }
      if i < j { StretchesApart(s, length, i, j); }
    }
  }

  lemma {:induction false} StretchOf(stretches: seq<Stretch>, length: nat, interval: nat) returns (i: nat)
    requires Chained(stretches, length) && stretches != [] && 1 <= interval <= stretches[|stretches| - 1].last
    ensures i < |stretches| && stretches[i].first <= interval <= stretches[i].last
  {
    i := |stretches| - 1;
    while interval < stretches[i].first
      invariant i < |stretches| && interval <= stretches[i].last
    {
      assert i > 0 && Follows(stretches[i - 1], stretches[i].first, stretches[i].start, length);
      i := i - 1;
    }
  }

  lemma {:induction false} PausePointsGrow(stretches: seq<Stretch>, length: nat, i: nat)
    requires Chained(stretches, length) && Long(stretches) && i < |stretches|
    ensures stretches[i].last >= 2 * (i + 1)
  {
    if i > 0 {
      PausePointsGrow(stretches, length, i - 1);
      assert Follows(stretches[i - 1], stretches[i].first, stretches[i].start, length);
    }
  }

  /** Pause points move at least two intervals each time, so a round of `last` intervals is paused fewer than last/2
      times. */
  lemma PausesBounded(actions: seq<Action>, length: nat, last: nat, r: Round)
    requires length > 0 && last < WRAP && Run(actions, length, last, r) && r.timeline.running && r.finished != []
    ensures 2 * |r.finished| < last
  {
    RunKeepsInv(actions, length, last, r);
    PausePointsGrow(r.finished, length, |r.finished| - 1);
  }

  // ----- The sender's side -----

  /** What a running sender demands of a pause; it may already be waiting for the interval after the one on the
      clock. */
  predicate SenderAcceptsPause(current: nat, intervals: nat, afterInterval: nat, at: nat, now: nat) {
    afterInterval != 0 && afterInterval >= current && at > now && afterInterval < intervals
  }

  predicate SenderAcceptsResume(pausedAfter: nat, pausedAt: nat, interval: nat, at: nat, now: nat) {
    interval == pausedAfter + 1 && at > now + 100 && at > pausedAt
  }

  /** A pause that reaches a sender within the interval in which it was issued is accepted, even if the sender has
      finished that interval early and waits for the next. */
  lemma PauseReachesSender(t: Timeline, length: nat, last: nat, now: nat, arrival: nat, current: nat, intervals: nat)
    requires length > 0 && 0 < t.first && last < intervals
    requires PauseNow(t, length, last, now, true).error == None
    requires t.first + ElapsedIntervals(t, length, now) + 1 < WRAP
    requires now <= arrival < t.start + (ElapsedIntervals(t, length, now) + 1) * length
    requires current <= t.first + ElapsedIntervals(t, length, arrival) + 1
    ensures var p := PauseNow(t, length, last, now, true).after;
            SenderAcceptsPause(current, intervals, p.pauseAfter, p.pauseAt, arrival)
  {
    PauseWithoutWrap(t, length, now);
    SameInterval(t, length, now, arrival);
    var k := ElapsedIntervals(t, length, now);
    hide ElapsedIntervals, PausePoint, PauseTime;
    Doubled(k, length);
  }

  lemma SameInterval(t: Timeline, length: nat, now: nat, arrival: nat)
    requires length > 0 && now <= arrival < t.start + (ElapsedIntervals(t, length, now) + 1) * length
    ensures ElapsedIntervals(t, length, arrival) <= ElapsedIntervals(t, length, now)
  {
    var k := ElapsedIntervals(t, length, now);
    if arrival > t.start {
      hide Quo;
      assert arrival - t.start < length * (k + 1) by { assert length * (k + 1) == (k + 1) * length; }
      QuotientBelow(arrival - t.start, length, k + 1);
    }
  }

  /** A resume that arrives within 1.9 seconds is accepted by every sender that took the pause. */
  lemma ResumeReachesSender(t: Timeline, now: nat, arrival: nat)
    requires ResumeNow(t, now, true).error == None && t.pauseAfter + 1 < WRAP && now <= arrival < now + 1900
    ensures var r := ResumeNow(t, now, true).after;
            SenderAcceptsResume(t.pauseAfter, t.pauseAt, r.first, r.start, arrival)
  {
  }

  /** Exactly when a sender takes an issued pause: it has not begun an interval beyond the pause point, the pause lies
      ahead, and the point lies within the round it was configured for. */
  lemma PauseTakenIff(t: Timeline, length: nat, last: nat, now: nat, arrival: nat, current: nat, intervals: nat)
    requires length > 0 && 0 < t.first && t.first + Whole(t, length, now) + 1 < WRAP && last < WRAP
    requires PauseNow(t, length, last, now, true).error == None
    ensures var p, point := PauseNow(t, length, last, now, true).after, t.first + Whole(t, length, now) + 1;
            SenderAcceptsPause(current, intervals, p.pauseAfter, p.pauseAt, arrival) <==>
              current <= point < intervals && arrival < t.start + (point + 1 - t.first) * length
  {
    PauseExactly(t, length, last, now, true);
    hide PauseNow, Whole;
  }

  /** Exactly when a sender that took the pause takes an issued resume: more than 100 ms before it. */
  lemma ResumeTakenIff(t: Timeline, now: nat, arrival: nat)
    requires ResumeNow(t, now, true).error == None && t.pauseAfter + 1 < WRAP
    ensures var r := ResumeNow(t, now, true).after;
            SenderAcceptsResume(t.pauseAfter, t.pauseAt, r.first, r.start, arrival) <==> arrival + 100 < r.start
  {
  }

  /** A sender takes no resume that skips or repeats an interval, or that lies before its pause. */
  lemma ResumeMustFollow(pausedAfter: nat, pausedAt: nat, interval: nat, at: nat, now: nat)
    requires SenderAcceptsResume(pausedAfter, pausedAt, interval, at, now)
    ensures interval == pausedAfter + 1 && at > pausedAt
  {
  }
}
