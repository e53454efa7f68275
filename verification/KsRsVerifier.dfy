/** Locating corrupted positions of a group from its row tags: what a passing row proves, and exactly when the
    located set is the corrupted set. */
module KsRsVerifier {
  import opened Bytes
  import opened Arithmetic
  import opened Primes
  import opened KsRsMatrix
  import opened KsRsBuilder

  type Hash = seq<Byte> -> Block

  // ----- Row tags -----

  /** Each MAC is preceded by a domain byte. */
  function AggregateInput(macs: seq<Block>): (s: seq<Byte>)
    ensures |s| == 33 * |macs|
  {
    if macs == [] then [] else AggregateInput(macs[..|macs| - 1]) + [1] + macs[|macs| - 1]
  }

  lemma {:induction false} AggregateInputInjective(a: seq<Block>, b: seq<Block>)
    requires AggregateInput(a) == AggregateInput(b)
    ensures a == b
  {
    if a != [] {
      var n := |a| - 1;
      var s := AggregateInput(a);
      assert s == (AggregateInput(a[..n]) + [1]) + a[n] == (AggregateInput(b[..n]) + [1]) + b[n];
      assert s[|s| - 32..] == a[n] && s[|s| - 32..] == b[n];
      assert s[..|s| - 33] == AggregateInput(a[..n]) && s[..|s| - 33] == AggregateInput(b[..n]);
      AggregateInputInjective(a[..n], b[..n]);
      assert a == a[..n] + [a[n]] && b == b[..n] + [b[n]];
    }
  }

  /** MAC i lies at 33*i, behind a byte of value 1. */
  lemma {:induction false} AggregateLayout(macs: seq<Block>, i: nat)
    requires i < |macs|
    ensures AggregateInput(macs)[33 * i] == 1 && AggregateInput(macs)[33 * i + 1..33 * i + 33] == macs[i]
  {
    var n := |macs| - 1;
    var before := AggregateInput(macs[..n]);
    assert AggregateInput(macs) == before + ([1] + macs[n]);
    if i < n {
      AggregateLayout(macs[..n], i);
      assert (before + ([1] + macs[n]))[33 * i + 1..33 * i + 33] == before[33 * i + 1..33 * i + 33];
    }
  }

  method AggregateMacList(hash: Hash, macs: seq<Block>) returns (tag: Block)
    ensures tag == hash(AggregateInput(macs))
  {
    var input: seq<Byte> := [];
    for i := 0 to |macs|
      invariant input == AggregateInput(macs[..i])
    {
      input := input + [1] + macs[i];
      assert macs[..i + 1][..i] == macs[..i];
    }
    assert macs[..|macs|] == macs;
    tag := hash(input);
  }

  predicate Ascending(s: seq<nat>) {
    forall i, j :: 0 <= i < j < |s| ==> s[i] < s[j]
  }

  /** The indices of the flags equal to `value`, ascending. */
  function Where(flags: seq<bool>, value: bool): (s: seq<nat>)
    ensures forall i :: 0 <= i < |s| ==> s[i] < |flags| && flags[s[i]] == value
    ensures Ascending(s)
  {
    if flags == [] then []
    else
      var rest := Where(flags[..|flags| - 1], value);
      if flags[|flags| - 1] == value then rest + [|flags| - 1] else rest
  }

  lemma {:induction false} WhereComplete(flags: seq<bool>, value: bool, c: nat)
    requires c < |flags|
    ensures c in Where(flags, value) <==> flags[c] == value
  {
    var n := |flags| - 1;
    var rest := Where(flags[..n], value);
    if c < n {
      WhereComplete(flags[..n], value, c);
      if c in rest { assert c in Where(flags, value); }
    } else if flags[c] == value {
      assert Where(flags, value)[|rest|] == c;
    }
  }

  function RowFlags(p: Params, row: nat, n: nat): (flags: seq<bool>)
    requires p.fieldSize > 0
    ensures |flags| == n && forall c: nat :: c < n ==> flags[c] == Contains(p, row, c)
  {
    seq(n, c requires 0 <= c < n => Contains(p, row, c))
  }

  /** The positions below n that a row holds, ascending. */
  function RowPositions(p: Params, row: nat, n: nat): (s: seq<nat>)
    requires p.fieldSize > 0
    ensures forall i :: 0 <= i < |s| ==> s[i] < n && Contains(p, row, s[i])
    ensures Ascending(s)
  {
    Where(RowFlags(p, row, n), true)
  }

  lemma RowPositionsNext(p: Params, row: nat, n: nat)
    requires p.fieldSize > 0
    ensures RowPositions(p, row, 0) == []
    ensures RowPositions(p, row, n + 1) == RowPositions(p, row, n) + if Contains(p, row, n) then [n] else []
  {
    hide Contains;
    assert RowFlags(p, row, n + 1)[..n] == RowFlags(p, row, n);
  }

  function Select<T>(items: seq<T>, positions: seq<nat>): (s: seq<T>)
    requires forall i :: 0 <= i < |positions| ==> positions[i] < |items|
    ensures |s| == |positions|
    ensures forall i :: 0 <= i < |s| ==> s[i] == items[positions[i]]
  {
    seq(|positions|, i requires 0 <= i < |positions| => items[positions[i]])
  }

  lemma SelectNext<T>(items: seq<T>, p: Params, row: nat, n: nat)
    requires p.fieldSize > 0 && n < |items|
    ensures RowPositions(p, row, 0) == [] && Select(items, []) == []
    ensures RowPositions(p, row, n + 1) == RowPositions(p, row, n) + if Contains(p, row, n) then [n] else []
    ensures Select(items, RowPositions(p, row, n + 1)) ==
            Select(items, RowPositions(p, row, n)) + if Contains(p, row, n) then [items[n]] else []
  {
    RowPositionsNext(p, row, n);
    hide Contains, Where, RowFlags, RowPositions, Ascending;
  }

  function RowMacs(p: Params, macs: seq<Block>, row: nat): seq<Block>
    requires p.fieldSize > 0
  {
    Select(macs, RowPositions(p, row, |macs|))
  }

  function Tag(hash: Hash, p: Params, macs: seq<Block>, row: nat): Block
    requires p.fieldSize > 0
  {
    hash(AggregateInput(RowMacs(p, macs, row)))
  }

  /** The tags the sender publishes: one hash per row over the MACs that the row selects. */
  function Tags(hash: Hash, p: Params, macs: seq<Block>, rows: nat): (tau: seq<Block>)
    requires p.fieldSize > 0
    ensures |tau| == rows
    ensures forall row: nat :: row < rows ==> tau[row] == Tag(hash, p, macs, row)
  {
    if rows == 0 then [] else Tags(hash, p, macs, rows - 1) + [Tag(hash, p, macs, rows - 1)]
  }

  datatype VerifyError = SlotsOutsideGroup | TagCountMismatch

  method CollectRow(m: Matrix, macs: seq<Block>, row: nat) returns (rowMacs: seq<Block>)
    requires m.Valid() && row < m.rows.Length0 && |macs| <= m.groupSize
    ensures rowMacs == RowMacs(m.params, macs, row)
  {
    hide Candidate, Contains, Where, RowPositions, Select, Ascending;
    rowMacs := [];
    assert RowPositions(m.params, row, 0) == [] && Select(macs, []) == [] by { RowPositionsNext(m.params, row, 0); }
    for c := 0 to |macs|
      invariant rowMacs == Select(macs, RowPositions(m.params, row, c))
    {
      SelectNext(macs, m.params, row, c);
      if m.rows[row, c] { rowMacs := rowMacs + [macs[c]]; }
    }
  }

  method Aggregate(hash: Hash, m: Matrix, macs: seq<Block>) returns (r: Result<seq<Block>, VerifyError>)
    requires m.Valid()
    ensures r.Ok? <==> 0 < |macs| <= m.groupSize
    ensures r.Ok? ==> r.value == Tags(hash, m.params, macs, m.params.RowCount())
    ensures r.Err? ==> r.error == SlotsOutsideGroup
  {
    if macs == [] || |macs| > m.groupSize { return Err(SlotsOutsideGroup); }
    hide Contains, Candidate, RowMacs;
    var tau: seq<Block> := [];
    for row := 0 to m.rows.Length0
      invariant |tau| == row
      invariant forall i: nat :: i < row ==> tau[i] == Tag(hash, m.params, macs, i)
    {
      var rowMacs := CollectRow(m, macs, row);
      var tag := AggregateMacList(hash, rowMacs);
      tau := tau + [tag];
    }
    r := Ok(tau);
  }

  // ----- Verification -----

  /** No position that the row holds is missing its MAC. */
  ghost predicate Complete(p: Params, slots: seq<Option<Block>>, row: nat)
    requires p.fieldSize > 0
  {
    forall c: nat :: c < |slots| && Contains(p, row, c) ==> slots[c].Some?
  }

  function Received(slots: seq<Option<Block>>): (macs: seq<Block>)
    ensures |macs| == |slots|
  {
    seq(|slots|, c requires 0 <= c < |slots| => if slots[c].Some? then slots[c].value else seq(32, _ => 0))
  }

  /** A row passes when it holds something, nothing it holds is missing, and its tag matches. */
  ghost predicate Passes(hash: Hash, p: Params, slots: seq<Option<Block>>, tau: seq<Block>, row: nat)
    requires p.fieldSize > 0 && row < |tau|
  {
    && RowPositions(p, row, |slots|) != []
    && Complete(p, slots, row)
    && Tag(hash, p, Received(slots), row) == tau[row]
  }

  /** A position is good once some passing row among the first `rows` holds it. */
  ghost predicate Good(hash: Hash, p: Params, slots: seq<Option<Block>>, tau: seq<Block>, rows: nat, position: nat)
    requires p.fieldSize > 0 && rows <= |tau|
  {
    exists row: nat :: row < rows && Contains(p, row, position) && Passes(hash, p, slots, tau, row)
  }

  method CollectWhere(flags: array<bool>, value: bool) returns (s: seq<nat>)
    ensures s == Where(flags[..], value)
  {
    s := [];
    for i := 0 to flags.Length
      invariant s == Where(flags[..i], value)
    {
      if flags[i] == value { s := s + [i]; }
      assert flags[..i + 1][..i] == flags[..i];
    }
    assert flags[..] == flags[..flags.Length];
  }

  datatype LocationStep = LocationStep(scanStep: nat, newGood: seq<nat>, remaining: seq<nat>)

  datatype Location = Location(good: seq<nat>, bad: seq<nat>, thresholdExceeded: bool, steps: seq<LocationStep>)

  /** What a location trace must show: which positions each passing row newly cleared, and what was left. */
  ghost predicate TraceOf(hash: Hash, p: Params, slots: seq<Option<Block>>, tau: seq<Block>, rows: nat,
                          steps: seq<LocationStep>)
    requires p.fieldSize > 0 && rows <= |tau|
  {
    && (forall i :: 0 <= i < |steps| ==> 0 < steps[i].scanStep <= rows && steps[i].newGood != [])
    && (forall i :: 0 <= i < |steps| ==> Ascending(steps[i].newGood) && Ascending(steps[i].remaining))
    && (forall i, j :: 0 <= i < j < |steps| ==> steps[i].scanStep < steps[j].scanStep)
    && (forall i, c: nat :: 0 <= i < |steps| ==>
          (c in steps[i].newGood <==> c < |slots| && Good(hash, p, slots, tau, steps[i].scanStep, c) &&
                                      !Good(hash, p, slots, tau, steps[i].scanStep - 1, c)))
    && (forall i, c: nat :: 0 <= i < |steps| ==>
          (c in steps[i].remaining <==> c < |slots| && !Good(hash, p, slots, tau, steps[i].scanStep, c)))
    && (forall c: nat :: c < |slots| && Good(hash, p, slots, tau, rows, c) ==>
          exists i :: 0 <= i < |steps| && c in steps[i].newGood)
  }

  /** Scans one row: the positions it holds and their MACs, stopping at the first missing one. */
  method ScanRow(m: Matrix, slots: seq<Option<Block>>, row: nat)
    returns (missing: bool, positions: seq<nat>, macs: seq<Block>)
    requires m.Valid() && row < m.rows.Length0 && |slots| <= m.groupSize
    ensures missing <==> !Complete(m.params, slots, row)
    ensures !missing ==> positions == RowPositions(m.params, row, |slots|)
    ensures !missing ==> macs == RowMacs(m.params, Received(slots), row)
  {
    hide Candidate, Contains, Where, RowPositions, Select, Ascending;
    missing, positions, macs := false, [], [];
    var c: nat := 0;
    assert RowPositions(m.params, row, 0) == [] && Select(Received(slots), []) == []
           by { RowPositionsNext(m.params, row, 0); }
    while c < |slots| && !missing
      invariant c <= |slots|
      invariant missing ==> !Complete(m.params, slots, row)
      invariant !missing ==> positions == RowPositions(m.params, row, c)
      invariant !missing ==> macs == Select(Received(slots), RowPositions(m.params, row, c))
      invariant !missing ==> forall d: nat :: d < c && Contains(m.params, row, d) ==> slots[d].Some?
      decreases |slots| - c, !missing
    {
      SelectNext(Received(slots), m.params, row, c);
      if m.rows[row, c] {
        if slots[c] == None {
          missing := true;
        } else {
          positions := positions + [c];
          macs := macs + [slots[c].value];
        }
      }
      if !missing { c := c + 1; }
    }
  }

  lemma AscendingAppend(s: seq<nat>, positions: seq<nat>, i: nat)
    requires Ascending(s) && Ascending(positions) && i < |positions|
    requires forall j :: 0 <= j < |s| ==> s[j] in positions[..i]
    ensures Ascending(s + [positions[i]]) && positions[i] !in positions[..i]
  {
  }

  function Marked(flags: seq<bool>, positions: seq<nat>): (r: seq<bool>)
    ensures |r| == |flags| && forall c: nat :: c < |flags| ==> (r[c] <==> flags[c] || c in positions)
  {
    seq(|flags|, c requires 0 <= c < |flags| => flags[c] || c in positions)
  }

  /** Marks every listed position and reports those that were not marked before, in order. */
  method MarkPositions(flags: array<bool>, positions: seq<nat>) returns (newGood: seq<nat>)
    requires forall i :: 0 <= i < |positions| ==> positions[i] < flags.Length
    requires Ascending(positions)
    modifies flags
    ensures flags[..] == Marked(old(flags[..]), positions)
    ensures forall c: nat :: c in newGood <==> c in positions && !old(flags[..])[c]
    ensures Ascending(newGood)
  {
    newGood := [];
    assert Ascending(newGood);
    hide Ascending;
    for i := 0 to |positions|
      invariant forall c: nat :: c < flags.Length ==> (flags[c] <==> old(flags[c]) || c in positions[..i])
      invariant forall c: nat :: c in newGood <==> c in positions[..i] && !old(flags[c])
      invariant Ascending(newGood)
    {
      AscendingAppend(newGood, positions, i);
      if !flags[positions[i]] { newGood := newGood + [positions[i]]; }
      flags[positions[i]] := true;
      assert positions[..i + 1] == positions[..i] + [positions[i]];
    }
    assert positions[..|positions|] == positions;
  }

  ghost function GoodFlags(hash: Hash, p: Params, slots: seq<Option<Block>>, tau: seq<Block>, rows: nat)
    : (flags: seq<bool>)
    requires p.fieldSize > 0 && rows <= |tau|
    ensures |flags| == |slots| && forall c: nat :: c < |slots| ==> flags[c] == Good(hash, p, slots, tau, rows, c)
  {
    seq(|slots|, c requires 0 <= c < |slots| => Good(hash, p, slots, tau, rows, c))
  }

  lemma GoodNext(hash: Hash, p: Params, slots: seq<Option<Block>>, tau: seq<Block>, row: nat, next: nat)
    requires p.fieldSize > 0 && row < |tau| && next == row + 1
    ensures forall c: nat :: Good(hash, p, slots, tau, next, c) <==>
            Good(hash, p, slots, tau, row, c) || (Contains(p, row, c) && Passes(hash, p, slots, tau, row))
  {
  }

  /** A row that clears nothing new leaves the trace as it was. */
  lemma TraceUnchanged(hash: Hash, p: Params, slots: seq<Option<Block>>, tau: seq<Block>, row: nat, next: nat,
      steps: seq<LocationStep>)
    requires p.fieldSize > 0 && row < |tau| && next == row + 1 && TraceOf(hash, p, slots, tau, row, steps)
    requires forall c: nat :: c < |slots| && Good(hash, p, slots, tau, next, c) ==> Good(hash, p, slots, tau, row, c)
    ensures TraceOf(hash, p, slots, tau, next, steps)
  {
    hide Good;
  }

  lemma TraceExtended(hash: Hash, p: Params, slots: seq<Option<Block>>, tau: seq<Block>, row: nat, next: nat,
      steps: seq<LocationStep>, step: LocationStep)
    requires p.fieldSize > 0 && row < |tau| && next == row + 1 && TraceOf(hash, p, slots, tau, row, steps)
    requires step.scanStep == next && step.newGood != [] && Ascending(step.newGood) && Ascending(step.remaining)
    requires forall c: nat :: c in step.newGood <==>
               c < |slots| && Good(hash, p, slots, tau, next, c) && !Good(hash, p, slots, tau, row, c)
    requires forall c: nat :: c in step.remaining <==> c < |slots| && !Good(hash, p, slots, tau, next, c)
    ensures TraceOf(hash, p, slots, tau, next, steps + [step])
  {
    hide Good;
    var all := steps + [step];
    assert forall i :: 0 <= i < |steps| ==> all[i] == steps[i];
    assert all[|steps|] == step;
    forall c: nat | c < |slots| && Good(hash, p, slots, tau, next, c)
           ensures exists i :: 0 <= i < |all| && c in all[i].newGood {
      if Good(hash, p, slots, tau, row, c) {
        var i :| 0 <= i < |steps| && c in steps[i].newGood;
        assert all[i] == steps[i];
      } else {
        assert c in all[|steps|].newGood;
      }
    }
  }

  lemma PassMarks(hash: Hash, p: Params, slots: seq<Option<Block>>, tau: seq<Block>, row: nat, next: nat)
    requires p.fieldSize > 0 && row < |tau| && next == row + 1 && Passes(hash, p, slots, tau, row)
    ensures GoodFlags(hash, p, slots, tau, next) ==
            Marked(GoodFlags(hash, p, slots, tau, row), RowPositions(p, row, |slots|))
  {
    GoodNext(hash, p, slots, tau, row, next);
    hide Good, Passes, Contains;
    forall c: nat | c < |slots| ensures c in RowPositions(p, row, |slots|) <==> Contains(p, row, c) {
      WhereComplete(RowFlags(p, row, |slots|), true, c);
    }
    hide RowPositions, RowFlags;
  }

  lemma NothingNew(hash: Hash, p: Params, slots: seq<Option<Block>>, tau: seq<Block>, row: nat, next: nat,
      positions: seq<nat>, steps: seq<LocationStep>)
    requires p.fieldSize > 0 && row < |tau| && next == row + 1 && TraceOf(hash, p, slots, tau, row, steps)
    requires GoodFlags(hash, p, slots, tau, next) == Marked(GoodFlags(hash, p, slots, tau, row), positions)
    requires forall c: nat :: c in positions && c < |slots| ==> GoodFlags(hash, p, slots, tau, row)[c]
    ensures TraceOf(hash, p, slots, tau, next, steps)
  {
    var after := GoodFlags(hash, p, slots, tau, next);
    hide Good, TraceOf;
    forall c: nat | c < |slots| && Good(hash, p, slots, tau, next, c) ensures Good(hash, p, slots, tau, row, c) {
      assert after[c];
    }
    TraceUnchanged(hash, p, slots, tau, row, next, steps);
  }

  lemma SomethingNew(hash: Hash, p: Params, slots: seq<Option<Block>>, tau: seq<Block>, row: nat, next: nat,
      positions: seq<nat>, steps: seq<LocationStep>, newGood: seq<nat>)
    requires p.fieldSize > 0 && row < |tau| && next == row + 1 && TraceOf(hash, p, slots, tau, row, steps)
    requires GoodFlags(hash, p, slots, tau, next) == Marked(GoodFlags(hash, p, slots, tau, row), positions)
    requires newGood != [] && Ascending(newGood) && forall c :: c in positions ==> c < |slots|
    requires forall c: nat :: c in newGood <==> c in positions && !GoodFlags(hash, p, slots, tau, row)[c]
    ensures TraceOf(hash, p, slots, tau, next,
                    steps + [LocationStep(next, newGood, Where(GoodFlags(hash, p, slots, tau, next), false))])
  {
    var before, after := GoodFlags(hash, p, slots, tau, row), GoodFlags(hash, p, slots, tau, next);
    hide Good, TraceOf, Ascending;
    forall c: nat ensures c in newGood <==>
        (c < |slots| && Good(hash, p, slots, tau, next, c) && !Good(hash, p, slots, tau, row, c)) {
      if c < |slots| { assert after[c] == (before[c] || c in positions); }
    }
    var remaining := Where(after, false);
    forall c: nat ensures c in remaining <==> (c < |slots| && !Good(hash, p, slots, tau, next, c)) {
      if c < |slots| { WhereComplete(after, false, c); }
    }
    TraceExtended(hash, p, slots, tau, row, next, steps, LocationStep(next, newGood, remaining));
  }

  /** A passing row marks what it holds and extends the trace when something is new. */
  method RecordPass(hash: Hash, m: Matrix, slots: seq<Option<Block>>, tau: seq<Block>, row: nat, positions: seq<nat>,
                    flags: array<bool>, steps: seq<LocationStep>)
    returns (after: seq<LocationStep>)
    requires m.Valid() && |tau| == m.rows.Length0 && row < |tau| && |slots| <= m.groupSize
    requires positions == RowPositions(m.params, row, |slots|) && Passes(hash, m.params, slots, tau, row)
    requires flags[..] == GoodFlags(hash, m.params, slots, tau, row)
    requires TraceOf(hash, m.params, slots, tau, row, steps)
    modifies flags
    ensures flags[..] == GoodFlags(hash, m.params, slots, tau, row + 1)
    ensures TraceOf(hash, m.params, slots, tau, row + 1, after)
  {
    ghost var p, next := m.params, row + 1;
    assert p.fieldSize > 0;
    PassMarks(hash, p, slots, tau, row, next);
    hide Candidate, Contains, Good, TraceOf, Passes, Ascending, Where, Tag, RowFlags, RowPositions, Marked, GoodFlags;
    var newGood := MarkPositions(flags, positions);
    after := steps;
    if newGood != [] {
      var remaining := CollectWhere(flags, false);
      SomethingNew(hash, p, slots, tau, row, next, positions, steps, newGood);
      after := steps + [LocationStep(row + 1, newGood, remaining)];
    } else {
      NothingNew(hash, p, slots, tau, row, next, positions, steps);
    }
  }

  /** One row of the scan. */
  method ScanAndMark(hash: Hash, m: Matrix, slots: seq<Option<Block>>, tau: seq<Block>, row: nat, flags: array<bool>,
                     steps: seq<LocationStep>)
    returns (after: seq<LocationStep>)
    requires m.Valid() && |tau| == m.rows.Length0 && row < |tau| && |slots| <= m.groupSize
    requires flags[..] == GoodFlags(hash, m.params, slots, tau, row)
    requires TraceOf(hash, m.params, slots, tau, row, steps)
    modifies flags
    ensures flags[..] == GoodFlags(hash, m.params, slots, tau, row + 1)
    ensures TraceOf(hash, m.params, slots, tau, row + 1, after)
  {
    ghost var p, next := m.params, row + 1;
    var missing, positions, macs := ScanRow(m, slots, row);
    if positions != [] && !missing {
      var tag := AggregateMacList(hash, macs);
      if tag == tau[row] {
        after := RecordPass(hash, m, slots, tau, row, positions, flags, steps);
        return;
      }
    }
    assert !Passes(hash, p, slots, tau, row);
    GoodNext(hash, p, slots, tau, row, next);
    hide Candidate, Contains, Good, TraceOf, Passes;
    assert flags[..] == GoodFlags(hash, p, slots, tau, next);
    TraceUnchanged(hash, p, slots, tau, row, next, steps);
    after := steps;
  }

  method Verify(hash: Hash, m: Matrix, slots: seq<Option<Block>>, tau: seq<Block>)
      returns (r: Result<Location, VerifyError>)
    requires m.Valid()
    ensures r.Ok? <==> 0 < |slots| <= m.groupSize && |tau| == m.params.RowCount()
    ensures r.Err? ==> r.error == if 0 < |slots| <= m.groupSize then TagCountMismatch else SlotsOutsideGroup
    ensures r.Ok? ==> r.value.good == Where(GoodFlags(hash, m.params, slots, tau, |tau|), true)
    ensures r.Ok? ==> r.value.bad == Where(GoodFlags(hash, m.params, slots, tau, |tau|), false)
    ensures r.Ok? ==> (r.value.thresholdExceeded <==> |r.value.bad| > m.threshold)
    ensures r.Ok? ==> TraceOf(hash, m.params, slots, tau, |tau|, r.value.steps)
  {
    if slots == [] || |slots| > m.groupSize { return Err(SlotsOutsideGroup); }
    if |tau| != m.rows.Length0 { return Err(TagCountMismatch); }
    var flags := new bool[|slots|](_ => false);
    var steps: seq<LocationStep> := [];
    assert flags[..] == GoodFlags(hash, m.params, slots, tau, 0);
    assert TraceOf(hash, m.params, slots, tau, 0, steps);
    hide Candidate, Contains, GoodFlags, TraceOf;
    for row := 0 to m.rows.Length0
      invariant flags[..] == GoodFlags(hash, m.params, slots, tau, row)
      invariant TraceOf(hash, m.params, slots, tau, row, steps)
    {
      steps := ScanAndMark(hash, m, slots, tau, row, flags, steps);
    }
    var good := CollectWhere(flags, true);
    var bad := CollectWhere(flags, false);
    r := Ok(Location(good, bad, |bad| > m.threshold, steps));
  }

  // ----- What the located set means -----

  /** The positions whose MAC is missing or differs from the one the sender aggregated. */
  ghost function Corrupted(slots: seq<Option<Block>>, sent: seq<Block>): (s: set<nat>)
    requires |slots| == |sent|
  {
    set c: nat | c < |sent| && slots[c] != Some(sent[c])
  }

  /** No two different row inputs that the verifier compares have the same hash. */
  ghost predicate NoRowCollision(hash: Hash, p: Params, slots: seq<Option<Block>>, sent: seq<Block>)
    requires p.fieldSize > 0
  {
    forall row: nat :: row < p.RowCount() && Complete(p, slots, row) &&
                       Tag(hash, p, Received(slots), row) == Tag(hash, p, sent, row) ==>
      AggregateInput(RowMacs(p, Received(slots), row)) == AggregateInput(RowMacs(p, sent, row))
  }

  /** A passing row vouches for every position it holds. */
  lemma GoodIsIntact(hash: Hash, p: Params, slots: seq<Option<Block>>, sent: seq<Block>, c: nat)
    requires p.fieldSize > 0 && |slots| == |sent| && c < |sent| && NoRowCollision(hash, p, slots, sent)
    requires Good(hash, p, slots, Tags(hash, p, sent, p.RowCount()), p.RowCount(), c)
    ensures slots[c] == Some(sent[c])
  {
    hide Contains;
    var tau := Tags(hash, p, sent, p.RowCount());
    var row: nat :| row < p.RowCount() && Contains(p, row, c) && Passes(hash, p, slots, tau, row);
    AggregateInputInjective(RowMacs(p, Received(slots), row), RowMacs(p, sent, row));
    var positions := RowPositions(p, row, |sent|);
    WhereComplete(RowFlags(p, row, |sent|), true, c);
    var i :| 0 <= i < |positions| && positions[i] == c;
    assert RowMacs(p, Received(slots), row)[i] == RowMacs(p, sent, row)[i];
  }

  /** A row that holds an intact position and no corrupted one passes. */
  lemma IntactRowPasses(hash: Hash, p: Params, slots: seq<Option<Block>>, sent: seq<Block>, c: nat, row: nat)
    requires p.fieldSize > 0 && |slots| == |sent| && c < |sent| && row < p.RowCount() && Contains(p, row, c)
    requires forall b :: b in Corrupted(slots, sent) ==> !Contains(p, row, b)
    ensures Passes(hash, p, slots, Tags(hash, p, sent, p.RowCount()), row)
  {
    hide Contains;
    WhereComplete(RowFlags(p, row, |sent|), true, c);
    var positions := RowPositions(p, row, |sent|);
    assert forall d: nat :: d < |slots| && Contains(p, row, d) ==>
      d !in Corrupted(slots, sent) && slots[d] == Some(sent[d]);
    assert RowMacs(p, Received(slots), row) == RowMacs(p, sent, row);
  }

  /** Losses of at most t positions in a group of n are told apart by the chosen matrix. */
  ghost predicate Guarded(p: Params, groupSize: nat, threshold: nat, n: nat)
    requires Candidate(groupSize, threshold, p) && n <= groupSize
  {
    threshold * (DigitsNeeded(n, p.fieldSize, p.messageLength) - 1) < p.messageLength + 2 * threshold
  }

  lemma IntactIsGood(hash: Hash, p: Params, groupSize: nat, threshold: nat, slots: seq<Option<Block>>,
      sent: seq<Block>, c: nat)
    requires Candidate(groupSize, threshold, p) && |slots| == |sent| <= groupSize
    requires Guarded(p, groupSize, threshold, |sent|)
    requires c < |sent| && slots[c] == Some(sent[c]) && |Corrupted(slots, sent)| <= threshold
    ensures Good(hash, p, slots, Tags(hash, p, sent, p.RowCount()), p.RowCount(), c)
  {
    assert p.fieldSize > 0;
    SeparatesIff(p, groupSize, threshold, |sent|);
    hide Candidate, Contains, Passes, Tags, Guarded;
    var bad := Corrupted(slots, sent);
    assert Isolated(p, c, bad);
    var row: nat :| row < p.RowCount() && Contains(p, row, c) && forall b :: b in bad ==> !Contains(p, row, b);
    IntactRowPasses(hash, p, slots, sent, c, row);
  }

  /** Every loss of at most t positions is located exactly, whatever the received MACs are. */
  ghost predicate LocatesSmallLosses(hash: Hash, p: Params, threshold: nat, sent: seq<Block>)
    requires p.fieldSize > 0
  {
    forall slots: seq<Option<Block>> ::
      |slots| == |sent| && NoRowCollision(hash, p, slots, sent) && |Corrupted(slots, sent)| <= threshold ==>
        LocatesExactly(hash, p, slots, sent)
  }

  ghost predicate LocatesExactly(hash: Hash, p: Params, slots: seq<Option<Block>>, sent: seq<Block>)
    requires p.fieldSize > 0 && |slots| == |sent|
  {
    forall c: nat :: c < |sent| ==>
      (Good(hash, p, slots, Tags(hash, p, sent, p.RowCount()), p.RowCount(), c) <==> c !in Corrupted(slots, sent))
  }

  /** The group in which exactly the positions of `bad` are missing. */
  ghost function Losing(sent: seq<Block>, bad: set<nat>): (slots: seq<Option<Block>>)
    ensures |slots| == |sent|
    ensures forall c: nat :: c < |sent| ==> slots[c] == if c in bad then None else Some(sent[c])
  {
    seq(|sent|, c requires 0 <= c < |sent| => if c in bad then None else Some(sent[c]))
  }

  lemma LosingHasNoCollision(hash: Hash, p: Params, sent: seq<Block>, bad: set<nat>)
    requires p.fieldSize > 0 && bad <= Range(|sent|)
    ensures NoRowCollision(hash, p, Losing(sent, bad), sent) && Corrupted(Losing(sent, bad), sent) == bad
  {
    hide Contains;
    var slots := Losing(sent, bad);
    forall row: nat | row < p.RowCount() && Complete(p, slots, row)
      ensures RowMacs(p, Received(slots), row) == RowMacs(p, sent, row)
    {
    }
    assert Corrupted(slots, sent) == bad;
  }

  /** Where the guard fails, losing some set of at most t positions leaves an intact position reported as bad. */
  lemma MislocatedLoss(hash: Hash, p: Params, groupSize: nat, threshold: nat, sent: seq<Block>)
    returns (slots: seq<Option<Block>>)
    requires Candidate(groupSize, threshold, p) && 0 < |sent| <= groupSize && !Guarded(p, groupSize, threshold, |sent|)
    ensures |slots| == |sent| && NoRowCollision(hash, p, slots, sent) && |Corrupted(slots, sent)| <= threshold
    ensures !LocatesExactly(hash, p, slots, sent)
  {
    var col, bad := UncoveredLoss(p, groupSize, threshold, |sent|);
    hide Candidate, Guarded, NoRowCollision, Corrupted, Isolated, Good, Tags, Complete;
    LosingHasNoCollision(hash, p, sent, bad);
    NotGoodWhenCovered(hash, p, sent, col, bad);
    slots := Losing(sent, bad);
  }

  lemma GuardedLocates(hash: Hash, p: Params, groupSize: nat, threshold: nat, sent: seq<Block>)
    requires Candidate(groupSize, threshold, p) && |sent| <= groupSize && Guarded(p, groupSize, threshold, |sent|)
    ensures LocatesSmallLosses(hash, p, threshold, sent)
  {
    assert p.fieldSize > 0;
    hide Candidate, Guarded, LocatesExactly, NoRowCollision, Corrupted;
    forall slots: seq<Option<Block>> | |slots| == |sent| && NoRowCollision(hash, p, slots, sent) &&
        |Corrupted(slots, sent)| <= threshold
      ensures LocatesExactly(hash, p, slots, sent)
    {
      LocatesWithin(hash, p, groupSize, threshold, slots, sent);
    }
  }

  lemma UnguardedMislocates(hash: Hash, p: Params, groupSize: nat, threshold: nat, sent: seq<Block>)
    requires Candidate(groupSize, threshold, p) && 0 < |sent| <= groupSize && !Guarded(p, groupSize, threshold, |sent|)
    ensures !LocatesSmallLosses(hash, p, threshold, sent)
  {
    hide Guarded, LocatesExactly, NoRowCollision, Corrupted;
    var slots := MislocatedLoss(hash, p, groupSize, threshold, sent);
  }

  /** A group of any size up to the group size, the short last group of a round included, is located exactly for every
      loss of at most t positions if and only if t*(j-1) < k+2t, where k is the chosen message length and j the number
      of digits that the positions of the group need. In a full group j is k. */
  lemma LocatesIff(hash: Hash, p: Params, groupSize: nat, threshold: nat, sent: seq<Block>)
    requires Candidate(groupSize, threshold, p) && 0 < |sent| <= groupSize
    ensures LocatesSmallLosses(hash, p, threshold, sent) <==>
            threshold * (DigitsNeeded(|sent|, p.fieldSize, p.messageLength) - 1) < p.messageLength + 2 * threshold
    ensures |sent| == groupSize ==> DigitsNeeded(|sent|, p.fieldSize, p.messageLength) == p.messageLength
  {
    FullGroupDigits(p, groupSize, threshold);
    if Guarded(p, groupSize, threshold, |sent|) {
      GuardedLocates(hash, p, groupSize, threshold, sent);
    } else {
      UnguardedMislocates(hash, p, groupSize, threshold, sent);
    }
    hide Candidate, DigitsNeeded, LocatesSmallLosses;
  }

  lemma LocatesWithin(hash: Hash, p: Params, groupSize: nat, threshold: nat, slots: seq<Option<Block>>,
      sent: seq<Block>)
    requires Candidate(groupSize, threshold, p) && |slots| == |sent| <= groupSize
    requires Guarded(p, groupSize, threshold, |sent|)
    requires NoRowCollision(hash, p, slots, sent) && |Corrupted(slots, sent)| <= threshold
    ensures LocatesExactly(hash, p, slots, sent)
  {
    assert p.fieldSize > 0;
    hide Candidate, Good, NoRowCollision, Tags, Guarded;
    forall c: nat | c < |sent| ensures Good(hash, p, slots, Tags(hash, p, sent, p.RowCount()), p.RowCount(), c) <==>
        c !in Corrupted(slots, sent) {
      if slots[c] == Some(sent[c]) {
        IntactIsGood(hash, p, groupSize, threshold, slots, sent, c);
      } else if Good(hash, p, slots, Tags(hash, p, sent, p.RowCount()), p.RowCount(), c) {
        GoodIsIntact(hash, p, slots, sent, c);
      }
    }
  }

  lemma NotGoodWhenCovered(hash: Hash, p: Params, sent: seq<Block>, col: nat, bad: set<nat>)
    requires p.fieldSize > 0 && col < |sent| && bad <= Range(|sent|) && !Isolated(p, col, bad)
    ensures !Good(hash, p, Losing(sent, bad), Tags(hash, p, sent, p.RowCount()), p.RowCount(), col)
  {
    hide Contains, Tags;
    var slots, tau := Losing(sent, bad), Tags(hash, p, sent, p.RowCount());
    forall row: nat | row < p.RowCount() && Contains(p, row, col) ensures !Passes(hash, p, slots, tau, row) {
      var b :| b in bad && Contains(p, row, b);
      assert slots[b] == None;
    }
  }

  // ----- The reported location -----

  lemma {:induction false} WhereCount(flags: seq<bool>, value: bool, members: set<nat>)
    requires forall c: nat :: c in members <==> c < |flags| && flags[c] == value
    ensures |Where(flags, value)| == |members|
  {
    if flags == [] {
      assert members == {};
    } else {
      var n: nat := |flags| - 1;
      assert forall c: nat :: c < n ==> flags[..n][c] == flags[c];
      WhereCount(flags[..n], value, members - {n});
      if flags[n] == value { assert members == (members - {n}) + {n}; } else { assert members == members - {n}; }
    }
  }

  /** Where small losses are located, the "threshold exceeded" flag is exact for every loss, large or small: it is
      raised if and only if more than t positions are corrupted, and otherwise the bad list is the corrupted set. */
  lemma ThresholdFlagExact(hash: Hash, p: Params, groupSize: nat, threshold: nat, slots: seq<Option<Block>>,
      sent: seq<Block>)
    requires Candidate(groupSize, threshold, p) && |slots| == |sent| <= groupSize
             && NoRowCollision(hash, p, slots, sent)
    requires threshold * (DigitsNeeded(|sent|, p.fieldSize, p.messageLength) - 1) < p.messageLength + 2 * threshold
    ensures var bad := Where(GoodFlags(hash, p, slots, Tags(hash, p, sent, p.RowCount()), p.RowCount()), false);
            && (|bad| > threshold <==> |Corrupted(slots, sent)| > threshold)
            && (|bad| <= threshold ==> forall c :: c in bad <==> c in Corrupted(slots, sent))
  {
    assert p.fieldSize > 0 && Guarded(p, groupSize, threshold, |sent|);
    hide Candidate, Good, NoRowCollision, Tags, Guarded;
    var tau := Tags(hash, p, sent, p.RowCount());
    var flags := GoodFlags(hash, p, slots, tau, p.RowCount());
    var members := set c: nat | c < |sent| && !Good(hash, p, slots, tau, p.RowCount(), c);
    WhereCount(flags, false, members);
    var corrupted := Corrupted(slots, sent);
    forall c | c in corrupted ensures c in members {
      if Good(hash, p, slots, tau, p.RowCount(), c) { GoodIsIntact(hash, p, slots, sent, c); }
    }
    SubsetSize(corrupted, members);
    if |corrupted| <= threshold {
      LocatesWithin(hash, p, groupSize, threshold, slots, sent);
      assert corrupted == members;
      forall c: nat | c < |sent| ensures c in Where(flags, false) <==> c in corrupted {
        WhereComplete(flags, false, c);
      }
    }
  }

  // ----- A deployment where location fails -----

  /** The guard in the form a caller can check from the matrix shape alone. */
  lemma GuardForm(t: nat, k: nat)
    ensures t * (k - 1) < k + 2 * t <==> (t - 1) * (k - 3) < 3
  {
    assert (t - 1) * (k - 3) == t * k - 3 * t - k + 3;
  }

  lemma LeastExponents(k: nat)
    ensures MinimalExponent(4096, 11, k) ==> k == 4
    ensures MinimalExponent(4096, 17, k) ==> k == 3
  {
    assert Pow(11, 2) == 121 && Pow(11, 3) == 1331 && Pow(11, 4) == 14641;
    assert Pow(17, 2) == 289 && Pow(17, 3) == 4913;
    if MinimalExponent(4096, 11, k) { MinimalExponentUnique(4096, 11, k, 4); }
    if MinimalExponent(4096, 17, k) { MinimalExponentUnique(4096, 17, k, 3); }
  }

  lemma LargeFieldRows(q: nat, k: nat)
    ensures q > 17 && k >= 1 ==> q * (k + 8) >= 162
  {
    if q > 17 && k >= 1 { MulMonotone(18, 9, q, k + 8); }
  }

  /** No field size but 13 gives a code of at most 156 rows for 4096 positions. */
  lemma OtherFieldSizes(q: nat, k: nat)
    requires IsPrime(q) && 9 <= q && MinimalExponent(4096, q, k) && k + 8 <= q && q * (k + 8) <= 156
    ensures q == 13
  {
    LeastExponents(k);
    LargeFieldRows(q, k);
    if q % 2 == 0 || q % 3 == 0 {
      assert false;
    }
    hide IsPrime, Pow;
  }

  /** For 4096 positions and threshold 4 the search can only choose (13, 4, 12). Whatever the MACs and the hash are,
      some loss of at most four of those positions is then not located. */
  lemma LargeGroupFails(hash: Hash, p: Params, sent: seq<Block>)
    requires Candidate(4096, 4, p) && forall other :: Candidate(4096, 4, other) ==> p.RowCount() <= other.RowCount()
    requires |sent| == 4096
    ensures p == Params(13, 4, 12) && !LocatesSmallLosses(hash, p, 4, sent)
  {
    LargeGroupChoice(p);
    hide Candidate, LocatesSmallLosses;
    LocatesIff(hash, p, 4096, 4, sent);
  }

  lemma LargeGroupChoice(p: Params)
    requires Candidate(4096, 4, p) && forall other :: Candidate(4096, 4, other) ==> p.RowCount() <= other.RowCount()
    ensures p == Params(13, 4, 12)
  {
    var best := Params(13, 4, 12);
    assert Pow(13, 2) == 169 && Pow(13, 3) == 2197 && Pow(13, 4) == 28561;
    assert Candidate(4096, 4, best);
    var q, k := p.fieldSize, p.messageLength;
    assert q * p.codeLength <= 156;
    OtherFieldSizes(q, k);
    MinimalExponentUnique(4096, 13, k, 4);
  }

  /** In the same deployment a last group of at most 2197 positions needs only three digits and is always located. */
  lemma ShortGroupLocated(hash: Hash, p: Params, sent: seq<Block>)
    requires p == Params(13, 4, 12) && Candidate(4096, 4, p) && 0 < |sent| <= 2197
    ensures LocatesSmallLosses(hash, p, 4, sent)
  {
    assert Pow(13, 3) == 2197;
    LocatesIff(hash, p, 4096, 4, sent);
  }
}
