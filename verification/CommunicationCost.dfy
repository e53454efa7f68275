/** Communication cost of a round: what the accumulator adds up datagram by datagram equals the closed form, and
    differs from the bytes on the wire by the sixteen header bytes of each datagram. */
module CommunicationCost {
  import opened Bytes
  import opened Arithmetic
  import opened UdpPacket
  import opened UdpCodec
  import opened SenderRound

  const ALGORITHM_FIELD_SIZE := 32
  const WORD := UINT64_MAX + 1

  /** A sum as a 64-bit counter holds it. */
  function Word(n: nat): nat {
    n % WORD
  }

  lemma WordTwice(n: nat)
    ensures Word(Word(n)) == Word(n)
  {
  }

  /** Bytes of algorithm fields, by kind. */
  datatype Cost = Cost(message: nat, key: nat, mac: nat, tau: nat, tag: nat) {
    function Plus(other: Cost): Cost {
      Cost(message + other.message, key + other.key, mac + other.mac, tau + other.tau, tag + other.tag)
    }

    function Total(): nat { message + key + mac + tau + tag }

    /** Each counter as a 64-bit word. */
    function Wrapped(): Cost {
      Cost(Word(message), Word(key), Word(mac), Word(tau), Word(tag))
    }
  }

  const NO_COST := Cost(0, 0, 0, 0, 0)

  // ----- Closed forms -----

  datatype CostError = FieldCountOverflows | WrongMode

  function MultiplyFieldCount(count: nat): (r: Result<nat, CostError>)
    ensures r.Ok? <==> count * ALGORITHM_FIELD_SIZE <= UINT64_MAX
  {
    if count > UINT64_MAX / ALGORITHM_FIELD_SIZE then Err(FieldCountOverflows) else Ok(count * ALGORITHM_FIELD_SIZE)
  }

  function FieldBytes(count: nat): (n: nat)
    requires count * 32 <= UINT64_MAX
    ensures n == 32 * count
  {
    MultiplyFieldCount(count).value
  }

  function SumNative(packets: nat, intervals: nat): Result<Cost, CostError> {
    var m, k := MultiplyFieldCount(packets), MultiplyFieldCount(intervals);
    if m.Err? || k.Err? then Err(FieldCountOverflows) else Ok(Cost(m.value, k.value, m.value, 0, 0))
  }

  function SumImproved(packets: nat, intervals: nat, taus: nat, groups: nat): Result<Cost, CostError> {
    var m, k, t, g := MultiplyFieldCount(packets), MultiplyFieldCount(intervals), MultiplyFieldCount(taus),
      MultiplyFieldCount(groups);
    if m.Err? || k.Err? || t.Err? || g.Err? then Err(FieldCountOverflows)
    else Ok(Cost(m.value, k.value, 0, t.value, g.value))
  }

  // ----- Accumulation -----

  /** The algorithm fields that one packet carries. */
  function CostOf(p: Packet): Cost {
    if p.Disclosure? then Cost(0, 32, 0, 0, 0)
    else
      var key := if p.key.Some? then 32 else 0;
      if p.details.NativeDetails? then Cost(32, key, 32, 0, 0)
      else if p.details.group.Some? then Cost(32, key, 0, 32 * |p.details.group.value.taus|, 32)
      else Cost(32, key, 0, 0, 0)
  }

  /** A datagram that does not decode is not counted. */
  function CostOfDatagram(b: seq<Byte>, c: Context): Cost
    requires c.Valid()
  {
    var d := Decode(b, c);
    if d.Ok? then CostOf(d.value) else NO_COST
  }

  function SumCost(datagrams: seq<seq<Byte>>, c: Context): Cost
    requires c.Valid()
  {
    if datagrams == [] then NO_COST
    else SumCost(datagrams[..|datagrams| - 1], c).Plus(CostOfDatagram(datagrams[|datagrams| - 1], c))
  }

  class Accumulator {
    const mode: Mode
    var messageBytes: nat
    var keyBytes: nat
    var macBytes: nat
    var tauBytes: nat
    var tagBytes: nat

    function Recorded(): Cost
      reads this
    {
      Cost(messageBytes, keyBytes, macBytes, tauBytes, tagBytes)
    }

    /** Every counter is a 64-bit word. */
    ghost predicate Valid()
      reads this
    {
      Recorded() == Recorded().Wrapped()
    }

    constructor (mode: Mode)
      ensures this.mode == mode && Valid() && Recorded() == NO_COST
    {
      this.mode := mode;
      messageBytes, keyBytes, macBytes, tauBytes, tagBytes := 0, 0, 0, 0, 0;
    }

    method AddNativeDataPacket() returns (r: Result<(), CostError>)
      requires Valid()
      modifies this
      ensures Valid() && (r.Ok? <==> mode == Native) && (r.Err? ==> r.error == CostError.WrongMode)
      ensures Recorded() == if r.Ok? then old(Recorded()).Plus(Cost(32, 0, 32, 0, 0)).Wrapped() else old(Recorded())
    {
      if mode != Native { return Err(CostError.WrongMode); }
      hide Word;
      WordTwice(messageBytes + ALGORITHM_FIELD_SIZE);
      WordTwice(macBytes + ALGORITHM_FIELD_SIZE);
      messageBytes := Word(messageBytes + ALGORITHM_FIELD_SIZE);
      macBytes := Word(macBytes + ALGORITHM_FIELD_SIZE);
      r := Ok(());
    }

    method AddImprovedDataPacket(tauCount: nat, hasTag: bool) returns (r: Result<(), CostError>)
      requires Valid() && tauCount * 32 <= UINT64_MAX
      modifies this
      ensures Valid() && (r.Ok? <==> mode == Improved) && (r.Err? ==> r.error == CostError.WrongMode)
      ensures Recorded() ==
              if r.Ok? then old(Recorded()).Plus(Cost(32, 0, 0, 32 * tauCount, if hasTag then 32 else 0)).Wrapped()
                            else old(Recorded())
    {
      if mode != Improved { return Err(CostError.WrongMode); }
      hide Word;
      var taus := FieldBytes(tauCount);
      WordTwice(messageBytes + ALGORITHM_FIELD_SIZE);
      WordTwice(tauBytes + taus);
      WordTwice(tagBytes + ALGORITHM_FIELD_SIZE);
      messageBytes := Word(messageBytes + ALGORITHM_FIELD_SIZE);
      tauBytes := Word(tauBytes + taus);
      if hasTag { tagBytes := Word(tagBytes + ALGORITHM_FIELD_SIZE); }
      r := Ok(());
    }

    method AddDisclosedKey()
      requires Valid()
      modifies this
      ensures Valid() && Recorded() == old(Recorded()).Plus(Cost(0, 32, 0, 0, 0)).Wrapped()
    {
      hide Word;
      WordTwice(keyBytes + ALGORITHM_FIELD_SIZE);
      keyBytes := Word(keyBytes + ALGORITHM_FIELD_SIZE);
    }

    /** Decodes a sent datagram again and counts its fields. */
    method RecordSent(b: seq<Byte>, c: Context)
      requires c.Valid() && mode == c.mode && Valid()
      modifies this
      ensures Valid() && Recorded() == old(Recorded()).Plus(CostOfDatagram(b, c)).Wrapped()
    {
      var d := DecodePacket(b, c);
      if d.Err? { return; }
      var p := d.value;
      ghost var rejected := DecodedShape(b, c);
      hide Decode, Rejection, Context.ValidWithCap;
      if p.Disclosure? {
        AddDisclosedKey();
        return;
      }
      if p.key.Some? { AddDisclosedKey(); }
      if p.details.NativeDetails? {
        var _ := AddNativeDataPacket();
        return;
      }
      var tauCount := if p.details.group.Some? then |p.details.group.value.taus| else 0;
      var _ := AddImprovedDataPacket(tauCount, p.details.group.Some?);
    }

    method RecordAll(datagrams: seq<seq<Byte>>, c: Context)
      requires c.Valid() && mode == c.mode && Recorded() == NO_COST
      modifies this
      ensures Valid() && Recorded() == SumCost(datagrams, c).Wrapped()
    {
      for i := 0 to |datagrams|
        invariant Valid() && Recorded() == SumCost(datagrams[..i], c).Wrapped()
      {
        WrapTwice(SumCost(datagrams[..i], c), CostOfDatagram(datagrams[i], c));
        RecordSent(datagrams[i], c);
        assert datagrams[..i + 1][..i] == datagrams[..i];
      }
      assert datagrams[..|datagrams|] == datagrams;
    }
  }

  lemma WrapTwice(a: Cost, b: Cost)
    ensures a.Wrapped().Wrapped() == a.Wrapped()
    ensures a.Wrapped().Plus(b).Wrapped() == a.Plus(b).Wrapped()
  {
    ModAbsorb(a.message, b.message, WORD);
    ModAbsorb(a.key, b.key, WORD);
    ModAbsorb(a.mac, b.mac, WORD);
    ModAbsorb(a.tau, b.tau, WORD);
    ModAbsorb(a.tag, b.tag, WORD);
  }

  /** Every decoded data packet has the details of the context's mode and at most its tag count. */
  lemma DecodedShape(b: seq<Byte>, c: Context) returns (p: Packet)
    requires c.Valid() && Decode(b, c).Ok?
    ensures p == Decode(b, c).value
    ensures p.Data? ==> (p.details.NativeDetails? <==> c.mode == Native)
    ensures p.Data? && p.details.ImprovedDetails? && p.details.group.Some? ==>
              |p.details.group.value.taus| <= MAX_SAFE_TAU_COUNT
  {
    p := Decode(b, c).value;
    EncodeDecode(b, c);
  }

  // ----- The whole round -----

  function Concat(round: seq<seq<seq<Byte>>>): seq<seq<Byte>> {
    if round == [] then [] else Concat(round[..|round| - 1]) + round[|round| - 1]
  }

  ghost function TailWires(s: Source, c: Context, first: nat, end: nat): (w: seq<seq<Byte>>)
    requires RoundFits(s, c) && c.FinalInterval() < first <= end <= c.FinalInterval() + c.disclosureDelay + 1
    ensures |w| == end - first
    decreases end
  {
    if end == first then [] else TailWires(s, c, first, end - 1) + [Wire(TailAt(s, c, end - 1))]
  }

  lemma ConcatNext(round: seq<seq<seq<Byte>>>, i: nat)
    requires i < |round|
    ensures Concat(round[..i + 1]) == Concat(round[..i]) + round[i]
  {
    assert round[..i + 1][..i] == round[..i];
  }

  lemma Positive(c: Context)
    requires c.Valid()
    ensures c.packetsPerInterval > 0 && c.totalPacketCount > 0 && c.disclosureDelay > 0
    ensures c.FinalInterval() + c.disclosureDelay <= UINT32_MAX
  {
  }

  lemma FirstOfRound(c: Context)
    requires c.Valid()
    ensures FirstPacket(c, 1) == 1
  {
  }

  /** Intervals 1..i together hold the packets up to the last one of interval i. */
  lemma {:induction false} ConcatData(s: Source, c: Context, round: seq<seq<seq<Byte>>>, i: nat)
    requires RoundFits(s, c) && IsRound(s, c, round) && 0 < i <= c.FinalInterval()
    ensures 0 < LastPacket(c, i) <= c.totalPacketCount && Concat(round[..i + 1]) == Wires(s, c, 1, LastPacket(c, i) + 1)
  {
    hide Context.ValidWithCap, Context.ExpectedInterval, FirstPacket, LastPacket, Wires;
    ConcatNext(round, i);
    IntervalNonempty(c, i);
    assert HoldsInterval(s, c, i, round[i]);
    if i == 1 {
      ConcatNext(round, 0);
      FirstOfRound(c);
    } else {
      ConcatData(s, c, round, i - 1);
      IntervalNonempty(c, i - 1);
      WiresAppend(s, c, 1, FirstPacket(c, i), LastPacket(c, i) + 1);
    }
  }

  lemma {:induction false} ConcatRound(s: Source, c: Context, round: seq<seq<seq<Byte>>>, i: nat)
    requires RoundFits(s, c) && IsRound(s, c, round) && c.FinalInterval() <= i < |round|
    ensures Concat(round[..i + 1]) == Wires(s, c, 1, c.totalPacketCount + 1)
            + TailWires(s, c, c.FinalInterval() + 1, i + 1)
    decreases i
  {
    hide Context.ValidWithCap, Context.ExpectedInterval, FirstPacket, LastPacket, Wires, Concat, TailAt, Wire,
         HoldsInterval;
    Positive(c);
    if i == c.FinalInterval() {
      IntervalNonempty(c, i);
      ConcatData(s, c, round, i);
    } else {
      ConcatNext(round, i);
      ConcatRound(s, c, round, i - 1);
      assert round[i] == [Wire(TailAt(s, c, i))];
    }
  }

  // ----- Counting fields -----

  lemma QuoStep(n: nat, d: nat)
    requires d > 0 && n > 0
    ensures Quo(n, d) == Quo(n - 1, d) + if Rem(n, d) == 0 then 1 else 0
  {
    Division(n - 1, d);
    var q, r := Quo(n - 1, d), Rem(n - 1, d);
    hide Quo, Rem;
    if r + 1 < d {
      DivisionUnique(n, d, q, r + 1);
    } else {
      assert d * (q + 1) == d * q + d;
      DivisionUnique(n, d, q + 1, 0);
    }
  }

  /** Keys carried by data packets 1..n. */
  function KeyCount(c: Context, n: nat): nat
    requires c.Valid()
  {
    if n == 0 || c.ExpectedInterval(n) <= c.disclosureDelay then 0 else c.ExpectedInterval(n) - c.disclosureDelay
  }

  lemma KeyCountStep(c: Context, n: nat)
    requires c.Valid() && 0 < n
    ensures KeyCount(c, n) == KeyCount(c, n - 1) + if c.CarriesKey(c.ExpectedInterval(n), n) then 1 else 0
  {
    if n == 1 {
      DivisionUnique(0, c.packetsPerInterval, 0, 0);
    } else {
      QuoStep(n - 1, c.packetsPerInterval);
      hide Quo, Rem;
    }
  }

  /** Group ends among packets 1..n. */
  function EndCount(c: Context, n: nat): nat
    requires c.Valid() && c.mode == Improved
  {
    if n < c.totalPacketCount then Quo(n, c.groupSize) else Quo(c.totalPacketCount - 1, c.groupSize) + 1
  }

  lemma EndCountStep(c: Context, n: nat)
    requires c.Valid() && c.mode == Improved && 0 < n <= c.totalPacketCount
    ensures EndCount(c, n) == EndCount(c, n - 1) + if c.IsGroupEnd(n) then 1 else 0
  {
    QuoStep(n, c.groupSize);
    hide Quo, Rem;
  }

  /** The cost of data packets 1..n of a round. */
  function DataCost(c: Context, n: nat): Cost
    requires c.Valid()
  {
    if c.mode == Native then Cost(32 * n, 32 * KeyCount(c, n), 32 * n, 0, 0)
    else Cost(32 * n, 32 * KeyCount(c, n), 0, 32 * (EndCount(c, n) * c.tauCount), 32 * EndCount(c, n))
  }

  /** The cost of data packet n alone. */
  function StepCost(c: Context, n: nat): Cost
    requires c.Valid() && 0 < n
  {
    var key := if c.CarriesKey(c.ExpectedInterval(n), n) then 32 else 0;
    if c.mode == Native then Cost(32, key, 32, 0, 0)
    else if c.IsGroupEnd(n) then Cost(32, key, 0, 32 * c.tauCount, 32) else Cost(32, key, 0, 0, 0)
  }

  lemma PacketCost(s: Source, c: Context, n: nat)
    requires SourceFits(s, c) && 0 < n <= c.totalPacketCount
    ensures CostOfDatagram(Wire(PacketAt(s, c, n)), c) == StepCost(c, n)
  {
    PacketEncodable(s, c, n);
    if c.mode == Improved { OneEndPerGroup(c, n); }
    hide Wire, Decode, Rejection, Quo, Rem, GroupEnd, GroupStart, GroupOf;
    DecodeEncode(PacketAt(s, c, n), c);
  }

  lemma DataCostStep(c: Context, n: nat)
    requires c.Valid() && 0 < n <= c.totalPacketCount
    ensures DataCost(c, n) == DataCost(c, n - 1).Plus(StepCost(c, n))
  {
    assert c.packetsPerInterval > 0 && (c.mode == Improved ==> c.groupSize > 0);
    hide KeyCount, EndCount, Context.ValidWithCap, Context.CarriesKey, Context.IsGroupEnd, Context.ExpectedInterval;
    KeyCountStep(c, n);
    if c.mode == Improved {
      EndCountStep(c, n);
      AddOneProduct(EndCount(c, n - 1), c.tauCount);
    }
  }

  lemma SumNext(datagrams: seq<seq<Byte>>, b: seq<Byte>, c: Context)
    requires c.Valid()
    ensures SumCost(datagrams + [b], c) == SumCost(datagrams, c).Plus(CostOfDatagram(b, c))
  {
    hide CostOfDatagram, Context.ValidWithCap;
    assert (datagrams + [b])[..|datagrams|] == datagrams;
  }

  lemma {:induction false} SumOfData(s: Source, c: Context, n: nat)
    requires SourceFits(s, c) && n <= c.totalPacketCount
    ensures SumCost(Wires(s, c, 1, n + 1), c) == DataCost(c, n)
  {
    if n > 0 {
      hide Context.ValidWithCap, Wire, CostOfDatagram, PacketAt, StepCost, DataCost, SumCost;
      SumOfData(s, c, n - 1);
      PacketCost(s, c, n);
      DataCostStep(c, n);
      SumNext(Wires(s, c, 1, n), Wire(PacketAt(s, c, n)), c);
    } else if c.mode == Improved {
      EmptyEndCount(c);
    }
  }

  lemma EmptyEndCount(c: Context)
    requires c.Valid() && c.mode == Improved
    ensures EndCount(c, 0) == 0
  {
    DivisionUnique(0, c.groupSize, 0, 0);
  }

  lemma TailCost(s: Source, c: Context, interval: nat)
    requires RoundFits(s, c) && c.FinalInterval() < interval <= c.FinalInterval() + c.disclosureDelay
    ensures CostOfDatagram(Wire(TailAt(s, c, interval)), c) == Cost(0, 32, 0, 0, 0)
  {
    TailEncodable(s, c, interval);
    hide Wire, Decode, Rejection, Context.ExpectedInterval;
    DecodeEncode(TailAt(s, c, interval), c);
  }

  lemma {:induction false} SumOfTails(s: Source, c: Context, base: seq<seq<Byte>>, end: nat)
    requires RoundFits(s, c) && c.FinalInterval() < end <= c.FinalInterval() + c.disclosureDelay + 1
    ensures SumCost(base + TailWires(s, c, c.FinalInterval() + 1, end), c) ==
            SumCost(base, c).Plus(Cost(0, 32 * (end - c.FinalInterval() - 1), 0, 0, 0))
    decreases end
  {
    hide Context.ValidWithCap, Context.ExpectedInterval, Wire, CostOfDatagram, TailAt, SumCost;
    Positive(c);
    var first := c.FinalInterval() + 1;
    if end == first {
      assert base + TailWires(s, c, first, end) == base;
    } else {
      SumOfTails(s, c, base, end - 1);
      TailCost(s, c, end - 1);
      SumNext(base + TailWires(s, c, first, end - 1), Wire(TailAt(s, c, end - 1)), c);
      assert base + TailWires(s, c, first, end) == base + TailWires(s, c, first, end - 1)
             + [Wire(TailAt(s, c, end - 1))];
    }
  }

  /** The number of groups, the last of which may be short. */
  function GroupCount(c: Context): nat
    requires c.Valid() && c.mode == Improved
  {
    Quo(c.totalPacketCount - 1, c.groupSize) + 1
  }

  lemma SumOfRound(s: Source, c: Context, round: seq<seq<seq<Byte>>>)
    requires RoundFits(s, c) && IsRound(s, c, round)
    ensures SumCost(Concat(round), c) ==
            DataCost(c, c.totalPacketCount).Plus(Cost(0, 32 * c.disclosureDelay, 0, 0, 0))
  {
    hide Context.ValidWithCap, Context.ExpectedInterval, Concat, TailWires, DataCost, SumCost, HoldsInterval, Wires,
         TailAt, Wire;
    Positive(c);
    assert round[..|round|] == round;
    ConcatRound(s, c, round, |round| - 1);
    SumOfData(s, c, c.totalPacketCount);
    SumOfTails(s, c, Wires(s, c, 1, c.totalPacketCount + 1), |round|);
  }

  /** What a round of N packets in F intervals and G groups costs. */
  function ClosedForm(c: Context): Result<Cost, CostError>
    requires c.Valid()
  {
    if c.mode == Native then SumNative(c.totalPacketCount, c.FinalInterval())
    else SumImproved(c.totalPacketCount, c.FinalInterval(), GroupCount(c) * c.tauCount, GroupCount(c))
  }

  lemma ClosedFormValue(c: Context)
    requires c.Valid() && c.disclosureDelay <= c.FinalInterval()
    ensures ClosedForm(c) == Ok(DataCost(c, c.totalPacketCount).Plus(Cost(0, 32 * c.disclosureDelay, 0, 0, 0)))
    ensures ClosedForm(c).value.Wrapped() == ClosedForm(c).value
  {
    hide Context.ValidWithCap, Context.ExpectedInterval, Context.FinalInterval, KeyCount, EndCount, GroupCount,
         SumNative, SumImproved;
    Positive(c);
    KeyTotal(c);
    var keys, n := KeyCount(c, c.totalPacketCount), c.totalPacketCount;
    if c.mode == Native {
      NativeValue(n, keys, c.disclosureDelay);
    } else {
      GroupCountBound(c);
      var groups := GroupCount(c);
      ImprovedValue(n, keys, c.disclosureDelay, groups * c.tauCount, groups);
    }
  }

  lemma KeyTotal(c: Context)
    requires c.Valid() && c.disclosureDelay <= c.FinalInterval()
    ensures KeyCount(c, c.totalPacketCount) + c.disclosureDelay == c.FinalInterval()
    ensures c.totalPacketCount <= UINT32_MAX && c.FinalInterval() <= UINT32_MAX
  {
    hide Quo;
  }

  lemma NativeValue(n: nat, keys: nat, delay: nat)
    requires n <= UINT32_MAX && keys + delay <= UINT32_MAX
    ensures SumNative(n, keys + delay) == Ok(Cost(32 * n, 32 * keys, 32 * n, 0, 0).Plus(Cost(0, 32 * delay, 0, 0, 0)))
    ensures SumNative(n, keys + delay).value.Wrapped() == SumNative(n, keys + delay).value
  {
  }

  lemma ImprovedValue(n: nat, keys: nat, delay: nat, taus: nat, groups: nat)
    requires n <= UINT32_MAX && keys + delay <= UINT32_MAX && groups <= n && taus <= UINT32_MAX * MAX_SAFE_TAU_COUNT
    ensures SumImproved(n, keys + delay, taus, groups) ==
            Ok(Cost(32 * n, 32 * keys, 0, 32 * taus, 32 * groups).Plus(Cost(0, 32 * delay, 0, 0, 0)))
    ensures SumImproved(n, keys + delay, taus, groups).value.Wrapped()
            == SumImproved(n, keys + delay, taus, groups).value
  {
  }

  /** Over a whole round the counters reach the closed form: one key per data interval, one tag set per group. */
  lemma RoundCost(s: Source, c: Context, round: seq<seq<seq<Byte>>>)
    requires RoundFits(s, c) && IsRound(s, c, round)
    ensures ClosedForm(c) == Ok(SumCost(Concat(round), c))
    ensures SumCost(Concat(round), c).Wrapped() == SumCost(Concat(round), c)
  {
    SumOfRound(s, c, round);
    hide Context.ValidWithCap, Context.ExpectedInterval, Concat, IsRound, SumCost, DataCost, ClosedForm, SourceFits;
    ClosedFormValue(c);
  }

  lemma GroupCountBound(c: Context)
    requires c.Valid() && c.mode == Improved
    ensures GroupCount(c) <= c.totalPacketCount && GroupCount(c) * c.tauCount <= UINT32_MAX * MAX_SAFE_TAU_COUNT
    ensures EndCount(c, c.totalPacketCount) == GroupCount(c)
  {
    var q := Quo(c.totalPacketCount - 1, c.groupSize);
    Division(c.totalPacketCount - 1, c.groupSize);
    hide Quo, Rem;
    MulMonotone(1, q, c.groupSize, q);
    MulMonotone(GroupCount(c), c.tauCount, UINT32_MAX, MAX_SAFE_TAU_COUNT);
  }

  // ----- Bytes on the wire -----

  function SumLength(datagrams: seq<seq<Byte>>): nat {
    if datagrams == [] then 0 else SumLength(datagrams[..|datagrams| - 1]) + |datagrams[|datagrams| - 1]|
  }

  ghost predicate AllDecode(datagrams: seq<seq<Byte>>, c: Context)
    requires c.Valid()
  {
    forall i :: 0 <= i < |datagrams| ==> Decode(datagrams[i], c).Ok?
  }

  lemma {:induction false} LengthsAreCosts(datagrams: seq<seq<Byte>>, c: Context)
    requires c.Valid() && AllDecode(datagrams, c)
    ensures SumLength(datagrams) == SumCost(datagrams, c).Total() + FIXED_HEADER_SIZE * |datagrams|
  {
    if datagrams != [] {
      var n := |datagrams| - 1;
      LengthsAreCosts(datagrams[..n], c);
      DatagramLength(datagrams[n], c);
      hide Decode, CostOfDatagram;
    }
  }

  /** Every accepted datagram is its algorithm fields plus the sixteen header bytes. */
  lemma DatagramLength(b: seq<Byte>, c: Context)
    requires c.Valid() && Decode(b, c).Ok?
    ensures |b| == CostOfDatagram(b, c).Total() + FIXED_HEADER_SIZE
  {
    EncodeDecode(b, c);
    hide Decode, Rejection, Header, Join;
  }

  lemma {:induction false} DataDecodes(s: Source, c: Context, n: nat)
    requires SourceFits(s, c) && n <= c.totalPacketCount
    ensures AllDecode(Wires(s, c, 1, n + 1), c)
  {
    if n > 0 {
      DataDecodes(s, c, n - 1);
      PacketEncodable(s, c, n);
      DecodeEncode(PacketAt(s, c, n), c);
      hide Decode, Wire, PacketAt, Context.ValidWithCap, Rejection;
    }
  }

  lemma {:induction false} TailsDecode(s: Source, c: Context, end: nat)
    requires RoundFits(s, c) && c.FinalInterval() < end <= c.FinalInterval() + c.disclosureDelay + 1
    ensures AllDecode(TailWires(s, c, c.FinalInterval() + 1, end), c)
    decreases end
  {
    Positive(c);
    if end > c.FinalInterval() + 1 {
      TailsDecode(s, c, end - 1);
      TailEncodable(s, c, end - 1);
      DecodeEncode(TailAt(s, c, end - 1), c);
      hide Decode, Wire, TailAt, Context.ValidWithCap, Context.ExpectedInterval, Rejection;
    }
  }

  /** A whole round puts its closed-form cost plus sixteen bytes per datagram on the wire. */
  lemma RoundBytes(s: Source, c: Context, round: seq<seq<seq<Byte>>>)
    requires RoundFits(s, c) && IsRound(s, c, round)
    ensures ClosedForm(c).Ok?
    ensures SumLength(Concat(round)) ==
            ClosedForm(c).value.Total() + FIXED_HEADER_SIZE * (c.totalPacketCount + c.disclosureDelay)
  {
    hide Context.ValidWithCap, Context.ExpectedInterval, Concat, TailWires, HoldsInterval, Wires, TailAt, Wire, Decode;
    Positive(c);
    assert round[..|round|] == round;
    ConcatRound(s, c, round, |round| - 1);
    DataDecodes(s, c, c.totalPacketCount);
    TailsDecode(s, c, |round|);
    RoundCost(s, c, round);
    assert AllDecode(Concat(round), c);
    hide AllDecode, SumCost, ClosedForm, SumLength, IsRound;
    LengthsAreCosts(Concat(round), c);
  }

  /** Sending a built round leaves the accumulator at the closed form. */
  method AccountRound(s: Source, c: Context) returns (r: Result<Cost, BuildError>)
    requires SourceFits(s, c)
    ensures r.Ok? <==> c.disclosureDelay <= c.FinalInterval()
    ensures r.Ok? ==> Ok(r.value) == ClosedForm(c)
  {
    hide Context.ValidWithCap, Context.ExpectedInterval, HoldsInterval, IsRound, ClosedForm, SumCost, Cost.Wrapped;
    Positive(c);
    var built := BuildRound(s, c);
    if built.Err? { return Err(built.error); }
    var round := built.value;
    var sent: seq<seq<Byte>> := [];
    for i := 0 to |round|
      invariant sent == Concat(round[..i])
    {
      ConcatNext(round, i);
      sent := sent + round[i];
    }
    assert round[..|round|] == round;
    var accumulator := new Accumulator(c.mode);
    accumulator.RecordAll(sent, c);
    RoundCost(s, c, round);
    r := Ok(accumulator.Recorded());
  }
}
