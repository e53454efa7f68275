/** The sender's precomputed round: data datagrams of every interval, then one disclosure per trailing interval. */
module SenderRound {
  import opened Bytes
  import opened Arithmetic
  import opened UdpPacket
  import opened UdpCodec
  import KeyChain

  /** What the sender puts into its packets; MACs and group tags come from the strategies. */
  datatype Source = Source(chainId: nat, keys: seq<Block>, message: nat -> Block, mac: nat -> Block,
                           group: (nat, nat) -> Group)

  /** Rounds beyond this size are refused before anything is built. */
  const MAX_PACKET_COUNT := 200000

  ghost predicate SourceMatches(s: Source, c: Context) {
    && c.Valid() && 0 < s.chainId <= UINT64_MAX && |s.keys| == c.FinalInterval() + 1
    && forall first: nat, last: nat :: c.mode == Improved ==> |s.group(first, last).taus| == c.tauCount
  }

  ghost predicate SourceFits(s: Source, c: Context) {
    SourceMatches(s, c) && c.totalPacketCount <= MAX_PACKET_COUNT
  }

  // ----- What each slot holds -----

  function GroupStart(c: Context, index: nat): nat
    requires c.groupSize > 0 && index > 0
  {
    c.groupSize * Quo(index - 1, c.groupSize) + 1
  }

  function DetailsAt(s: Source, c: Context, index: nat): Details
    requires c.Valid() && 0 < index
  {
    if c.mode == Native then NativeDetails(s.mac(index))
    else if index == GroupEnd(c, index) then ImprovedDetails(Some(s.group(GroupStart(c, index), index)))
    else ImprovedDetails(None)
  }

  function PacketAt(s: Source, c: Context, index: nat): (p: Packet)
    requires c.Valid() && 0 < index <= c.totalPacketCount && |s.keys| == c.FinalInterval() + 1
  {
    var interval := c.ExpectedInterval(index);
    IntervalWithin(c, index);
    Data(s.chainId, interval, index, s.message(index),
         if c.CarriesKey(interval, index) then Some(s.keys[interval - c.disclosureDelay]) else None,
         DetailsAt(s, c, index))
  }

  function TailAt(s: Source, c: Context, interval: nat): Packet
    requires c.Valid() && |s.keys| == c.FinalInterval() + 1
    requires c.disclosureDelay < interval <= c.FinalInterval() + c.disclosureDelay
  {
    Disclosure(s.chainId, interval, s.keys[interval - c.disclosureDelay])
  }

  lemma IntervalWithin(c: Context, index: nat)
    requires c.Valid() && 0 < index <= c.totalPacketCount
    ensures c.ExpectedInterval(index) <= c.FinalInterval() <= UINT32_MAX
  {
    ExpectedIntervalMonotone(c, index, c.totalPacketCount);
  }

  lemma PacketEncodable(s: Source, c: Context, index: nat)
    requires SourceFits(s, c) && 0 < index <= c.totalPacketCount
    ensures PacketAt(s, c, index).WellFormed() && Rejection(PacketAt(s, c, index), c) == None
  {
    IntervalWithin(c, index);
    if c.mode == Improved { OneEndPerGroup(c, index); }
    hide Quo, Rem, GroupEnd, GroupOf;
  }

  // ----- Building an interval -----

  function FirstPacket(c: Context, interval: nat): (first: nat)
    requires c.Valid() && 0 < interval
    ensures first > 0
  {
    MulMonotone(0, 0, interval - 1, c.packetsPerInterval);
    (interval - 1) * c.packetsPerInterval + 1
  }

  function LastPacket(c: Context, interval: nat): nat
    requires c.Valid() && 0 < interval
  {
    if interval * c.packetsPerInterval <= c.totalPacketCount then interval * c.packetsPerInterval
    else c.totalPacketCount
  }

  /** The packets first..last are the packets of the interval. */
  lemma IntervalRange(c: Context, interval: nat, index: nat)
    requires c.Valid() && 0 < interval && 0 < index <= c.totalPacketCount
    ensures c.ExpectedInterval(index) == interval <==> FirstPacket(c, interval) <= index <= LastPacket(c, interval)
  {
    IntervalPackets(c, index, interval);
    SplitProduct(interval, c.packetsPerInterval);
  }

  lemma SplitProduct(i: nat, p: nat)
    requires i > 0
    ensures p * (i - 1) == (i - 1) * p && i * p == (i - 1) * p + p
  {
  }

  lemma IntervalNonempty(c: Context, interval: nat)
    requires c.Valid() && 0 < interval <= c.FinalInterval()
    ensures 0 < FirstPacket(c, interval) <= LastPacket(c, interval) <= c.totalPacketCount
    ensures interval == c.FinalInterval() ==> LastPacket(c, interval) == c.totalPacketCount
    ensures interval < c.FinalInterval() ==> LastPacket(c, interval) + 1 == FirstPacket(c, interval + 1)
  {
    var f, p := c.FinalInterval(), c.packetsPerInterval;
    IntervalPackets(c, c.totalPacketCount, f);
    MulMonotone(p, interval - 1, p, f - 1);
    SplitProduct(interval, p);
    if interval < f {
      MulMonotone(p, interval, p, f - 1);
      assert p * interval == interval * p;
    }
  }

  /** The first packet of an interval is the one the context gives a key to. */
  lemma FirstCarriesKey(c: Context, interval: nat, index: nat)
    requires c.Valid() && 0 < interval && 0 < index <= c.totalPacketCount && c.ExpectedInterval(index) == interval
    ensures c.CarriesKey(interval, index) <==> index == FirstPacket(c, interval) && interval > c.disclosureDelay
  {
    Division(index - 1, c.packetsPerInterval);
    SplitProduct(interval, c.packetsPerInterval);
  }

  datatype BuildError = TooManyPackets | NoSuchKey

  /** The last packet of an interval as the builder computes it, with a 32-bit product. */
  function ComputedLast(c: Context, interval: nat): nat
    requires c.Valid() && 0 < interval
  {
    var end := interval * c.packetsPerInterval % (UINT32_MAX + 1);
    if end <= c.totalPacketCount then end else c.totalPacketCount
  }

  /** In a round of bounded size the product never wraps, so the computed end is the last packet of the interval. */
  lemma ComputedLastValue(c: Context, interval: nat)
    requires c.Valid() && c.totalPacketCount <= MAX_PACKET_COUNT && 0 < interval <= c.FinalInterval()
    ensures interval * c.packetsPerInterval <= UINT32_MAX && ComputedLast(c, interval) == LastPacket(c, interval)
  {
    var p := c.packetsPerInterval;
    IntervalNonempty(c, interval);
    SplitProduct(interval, p);
    assert p <= UINT32_MAX;
    if interval > 1 { MulMonotone(1, p, interval - 1, p); }
    hide Context.ValidWithCap, Context.ExpectedInterval;
    BelowWrap(interval * p);
  }

  lemma ComputedLastIsLast(c: Context, interval: nat)
    requires c.Valid() && c.totalPacketCount <= MAX_PACKET_COUNT && 0 < interval <= c.FinalInterval()
    ensures ComputedLast(c, interval) == LastPacket(c, interval)
  {
    ComputedLastValue(c, interval);
  }

  lemma BelowWrap(end: nat)
    requires end <= UINT32_MAX
    ensures end % (UINT32_MAX + 1) == end
  {
  }

  /** The key that the builder puts into a packet: only in the first packet, only once the delay has passed. */
  method DisclosureForPacket(s: Source, c: Context, interval: nat, index: nat, first: nat) returns (key: Option<Block>)
    requires SourceFits(s, c) && 0 < index <= c.totalPacketCount
    requires interval == c.ExpectedInterval(index) && first == FirstPacket(c, interval)
    ensures key == PacketAt(s, c, index).key
  {
    FirstCarriesKey(c, interval, index);
    IntervalWithin(c, index);
    if index != first || interval <= c.disclosureDelay { return None; }
    key := Some(s.keys[interval - c.disclosureDelay]);
  }

  /** The datagrams of packets first .. end-1. */
  ghost function Wires(s: Source, c: Context, first: nat, end: nat): (w: seq<seq<Byte>>)
    requires SourceFits(s, c) && 0 < first <= end <= c.totalPacketCount + 1
    ensures |w| == end - first
    decreases end
  {
    if end == first then [] else Wires(s, c, first, end - 1) + [Wire(PacketAt(s, c, end - 1))]
  }

  lemma {:induction false} WireInSlot(s: Source, c: Context, first: nat, end: nat, k: nat)
    requires SourceFits(s, c) && 0 < first && first + k < end <= c.totalPacketCount + 1
    ensures Wires(s, c, first, end)[k] == Wire(PacketAt(s, c, first + k))
    decreases end
  {
    hide Wire, PacketAt, SourceFits;
    if first + k < end - 1 { WireInSlot(s, c, first, end - 1, k); }
  }

  lemma WiresEmpty(s: Source, c: Context, first: nat)
    requires SourceFits(s, c) && 0 < first <= c.totalPacketCount + 1
    ensures Wires(s, c, first, first) == []
  {
  }

  lemma {:induction false} WiresAppend(s: Source, c: Context, first: nat, middle: nat, end: nat)
    requires SourceFits(s, c) && 0 < first <= middle <= end <= c.totalPacketCount + 1
    ensures Wires(s, c, first, middle) + Wires(s, c, middle, end) == Wires(s, c, first, end)
    decreases end
  {
    hide Wire, PacketAt, SourceFits;
    if middle < end { WiresAppend(s, c, first, middle, end - 1); }
  }

  method EncodeAt(s: Source, c: Context, interval: nat, index: nat, details: Details) returns (datagram: seq<Byte>)
    requires SourceFits(s, c) && 0 < index <= c.totalPacketCount
    requires interval == c.ExpectedInterval(index) && details == DetailsAt(s, c, index)
    ensures datagram == Wire(PacketAt(s, c, index))
  {
    var key := DisclosureForPacket(s, c, interval, index, FirstPacket(c, interval));
    PacketEncodable(s, c, index);
    hide DetailsAt, Wire, Rejection, SourceFits, Quo, Rem;
    var r := Encode(Data(s.chainId, interval, index, s.message(index), key, details), c);
    datagram := r.value;
  }

  /** Interval i of a built round holds the datagrams of its packets. */
  ghost predicate HoldsInterval(s: Source, c: Context, interval: nat, wires: seq<seq<Byte>>)
    requires SourceFits(s, c) && 0 < interval <= c.FinalInterval()
  {
    && FirstPacket(c, interval) <= LastPacket(c, interval) <= c.totalPacketCount
    && wires == Wires(s, c, FirstPacket(c, interval), LastPacket(c, interval) + 1)
  }

  method BuildNativeInterval(s: Source, c: Context, interval: nat) returns (datagrams: seq<seq<Byte>>)
    requires SourceFits(s, c) && c.mode == Native && 0 < interval <= c.FinalInterval()
    ensures HoldsInterval(s, c, interval, datagrams)
  {
    assert c.Valid() && c.totalPacketCount <= MAX_PACKET_COUNT;
    hide Wire, PacketAt, SourceFits, FirstPacket, LastPacket, ComputedLast, DetailsAt, Context.ValidWithCap,
         Context.ExpectedInterval;
    IntervalNonempty(c, interval);
    ComputedLastIsLast(c, interval);
    var first, last := FirstPacket(c, interval), ComputedLast(c, interval);
    datagrams := [];
    for index := first to last + 1
      invariant datagrams == Wires(s, c, first, index)
    {
      IntervalRange(c, interval, index);
      var datagram := EncodeAt(s, c, interval, index, NativeDetails(s.mac(index)));
      datagrams := datagrams + [datagram];
    }
  }

  ghost predicate OpensGroup(c: Context, k: nat, first: nat) {
    first == c.groupSize * k + 1
  }

  /** Where the builder ends the group that starts at `first`. */
  function BuilderLast(c: Context, interval: nat, first: nat): nat
    requires c.Valid() && 0 < interval && c.groupSize > 0
  {
    if LastPacket(c, interval) <= first + c.groupSize - 1 then LastPacket(c, interval) else first + c.groupSize - 1
  }

  /** A group that starts where the builder starts it ends where the context ends it. */
  lemma BuilderGroup(c: Context, interval: nat, k: nat, first: nat, last: nat, index: nat)
    requires c.Valid() && c.mode == Improved && 0 < interval <= c.FinalInterval()
    requires OpensGroup(c, k, first) && FirstPacket(c, interval) <= first <= LastPacket(c, interval)
    requires last == BuilderLast(c, interval, first)
    requires first <= index <= last
    ensures first <= last && GroupEnd(c, index) == last && GroupStart(c, index) == first
    ensures last < LastPacket(c, interval) ==> OpensGroup(c, k + 1, last + 1)
  {
    IntervalNonempty(c, interval);
    var g, p := c.groupSize, c.packetsPerInterval;
    assert g * (k + 1) == g * k + g;
    GroupBounds(c, index, k + 1);
    assert GroupOf(c, index) == k + 1;
    ExactDivision(p, g);
    QuotientNat(p, g);
    var m: nat := p / g;
    BoundaryProduct(p, g, m, interval);
    SplitProduct(interval, p);
    MulMonotone(0, 0, m, interval - 1);
    var b: nat := m * (interval - 1) + m;
    assert interval * p == g * b;
    hide Quo, Rem;
    WithinMultiple(first, g * (k + 1), g, k + 1, b);
  }

  /** The first packet of an interval opens a group. */
  lemma IntervalOpensGroup(c: Context, interval: nat) returns (k: nat)
    requires c.Valid() && c.mode == Improved && 0 < interval
    ensures OpensGroup(c, k, FirstPacket(c, interval))
  {
    var g, p := c.groupSize, c.packetsPerInterval;
    ExactDivision(p, g);
    QuotientNat(p, g);
    var m: nat := p / g;
    MulMonotone(0, 0, m, interval - 1);
    k := m * (interval - 1);
    assert (interval - 1) * (m * g) == g * (m * (interval - 1));
  }

  lemma BuilderDetails(s: Source, c: Context, interval: nat, k: nat, first: nat, last: nat, index: nat)
    requires c.Valid() && c.mode == Improved && 0 < interval <= c.FinalInterval()
    requires OpensGroup(c, k, first) && FirstPacket(c, interval) <= first <= LastPacket(c, interval)
    requires last == BuilderLast(c, interval, first)
    requires first <= index <= last <= c.totalPacketCount
    ensures c.ExpectedInterval(index) == interval
    ensures DetailsAt(s, c, index) == ImprovedDetails(if index == last then Some(s.group(first, last)) else None)
  {
    BuilderGroup(c, interval, k, first, last, index);
    IntervalRange(c, interval, index);
    hide GroupEnd, GroupStart, FirstPacket, LastPacket;
  }

  lemma PositiveGroup(c: Context)
    requires c.Valid() && c.mode == Improved
    ensures c.groupSize > 0
  {
  }

  method BuildGroup(s: Source, c: Context, interval: nat, ghost k: nat, first: nat, last: nat)
    returns (datagrams: seq<seq<Byte>>)
    requires SourceFits(s, c) && c.mode == Improved && 0 < interval <= c.FinalInterval()
    requires OpensGroup(c, k, first) && FirstPacket(c, interval) <= first <= LastPacket(c, interval)
    requires last == BuilderLast(c, interval, first)
    requires last <= c.totalPacketCount
    ensures datagrams == Wires(s, c, first, last + 1)
  {
    hide Context.ValidWithCap, Context.ExpectedInterval, Wire, PacketAt, FirstPacket, LastPacket, DetailsAt, OpensGroup;
    assert c.Valid() && c.groupSize > 0 by { PositiveGroup(c); }
    hide SourceFits, BuilderLast;
    WiresEmpty(s, c, first);
    datagrams := [];
    for index := first to last + 1
      invariant datagrams == Wires(s, c, first, index)
    {
      BuilderDetails(s, c, interval, k, first, last, index);
      var group: Option<Group> := None;
      if index == last { group := Some(s.group(first, last)); }
      var datagram := EncodeAt(s, c, interval, index, ImprovedDetails(group));
      datagrams := datagrams + [datagram];
    }
  }

  /** The datagrams of an interval before packet `next`. */
  ghost predicate BuiltUpTo(s: Source, c: Context, interval: nat, next: nat, datagrams: seq<seq<Byte>>)
    requires SourceFits(s, c) && 0 < interval <= c.FinalInterval()
  {
    && FirstPacket(c, interval) <= next <= LastPacket(c, interval) + 1 && LastPacket(c, interval) <= c.totalPacketCount
    && datagrams == Wires(s, c, FirstPacket(c, interval), next)
  }

  lemma BuildingStarts(s: Source, c: Context, interval: nat)
    requires SourceFits(s, c) && 0 < interval <= c.FinalInterval()
    ensures BuiltUpTo(s, c, interval, FirstPacket(c, interval), [])
    ensures FirstPacket(c, interval) <= LastPacket(c, interval)
  {
    hide FirstPacket, LastPacket, Wires, Quo, Rem;
    IntervalNonempty(c, interval);
    WiresEmpty(s, c, FirstPacket(c, interval));
  }

  lemma BuildingEnds(s: Source, c: Context, interval: nat, datagrams: seq<seq<Byte>>)
    requires SourceFits(s, c) && 0 < interval <= c.FinalInterval()
    requires BuiltUpTo(s, c, interval, LastPacket(c, interval) + 1, datagrams)
    ensures HoldsInterval(s, c, interval, datagrams)
  {
    hide FirstPacket, LastPacket, Wires, Quo, Rem;
    IntervalNonempty(c, interval);
  }

  lemma BuildingContinues(
      s: Source, c: Context, interval: nat, next: nat, end: nat, before: seq<seq<Byte>>, packets: seq<seq<Byte>>)
    requires SourceFits(s, c) && 0 < interval <= c.FinalInterval() && BuiltUpTo(s, c, interval, next, before)
    requires next <= end <= LastPacket(c, interval) + 1 && packets == Wires(s, c, next, end)
    ensures BuiltUpTo(s, c, interval, end, before + packets)
  {
    hide FirstPacket, LastPacket, Wires, Quo, Rem;
    WiresAppend(s, c, FirstPacket(c, interval), next, end);
  }

  method FindLast(c: Context, interval: nat, first: nat) returns (last: nat)
    requires c.Valid() && c.groupSize > 0 && c.totalPacketCount <= MAX_PACKET_COUNT && 0 < interval <= c.FinalInterval()
    requires FirstPacket(c, interval) <= first <= LastPacket(c, interval)
    ensures last == BuilderLast(c, interval, first) && first <= last <= LastPacket(c, interval) <= c.totalPacketCount
  {
    hide FirstPacket, LastPacket, ComputedLast, Context.Valid, Context.FinalInterval;
    ComputedLastIsLast(c, interval);
    IntervalNonempty(c, interval);
    var end := ComputedLast(c, interval);
    last := if end <= first + c.groupSize - 1 then end else first + c.groupSize - 1;
  }

  lemma FitsImproved(s: Source, c: Context)
    requires SourceFits(s, c) && c.mode == Improved
    ensures c.Valid() && c.totalPacketCount <= MAX_PACKET_COUNT && c.groupSize > 0 && c.packetsPerInterval > 0
    ensures c.totalPacketCount > 0
  {
  }

  method BuildNextGroup(s: Source, c: Context, interval: nat, ghost k: nat, first: nat, ghost before: seq<seq<Byte>>)
    returns (datagrams: seq<seq<Byte>>, next: nat)
    requires SourceFits(s, c) && c.mode == Improved && 0 < interval <= c.FinalInterval()
    requires OpensGroup(c, k, first) && FirstPacket(c, interval) <= first <= LastPacket(c, interval)
    requires BuiltUpTo(s, c, interval, first, before)
    ensures first < next <= LastPacket(c, interval) + 1 && BuiltUpTo(s, c, interval, next, before + datagrams)
    ensures next <= LastPacket(c, interval) ==> OpensGroup(c, k + 1, next)
  {
    hide *;
    FitsImproved(s, c);
    var last := FindLast(c, interval, first);
    BuilderGroup(c, interval, k, first, last, last);
    datagrams := BuildGroup(s, c, interval, k, first, last);
    BuildingContinues(s, c, interval, first, last + 1, before, datagrams);
    next := last + 1;
  }

  method BuildImprovedInterval(s: Source, c: Context, interval: nat) returns (datagrams: seq<seq<Byte>>)
    requires SourceFits(s, c) && c.mode == Improved && 0 < interval <= c.FinalInterval()
    ensures HoldsInterval(s, c, interval, datagrams)
  {
    hide Context.ValidWithCap, Context.ExpectedInterval, FirstPacket, LastPacket, OpensGroup, ComputedLast;
    assert c.Valid() && c.totalPacketCount <= MAX_PACKET_COUNT;
    hide SourceFits, SourceMatches, Quo, Rem, Context.Valid, Context.FinalInterval, HoldsInterval, BuiltUpTo;
    ComputedLastIsLast(c, interval);
    BuildingStarts(s, c, interval);
    var groupFirst, last := FirstPacket(c, interval), ComputedLast(c, interval);
    ghost var k := IntervalOpensGroup(c, interval);
    datagrams := [];
    while groupFirst <= last
      invariant groupFirst <= last + 1 && BuiltUpTo(s, c, interval, groupFirst, datagrams)
      invariant groupFirst <= last ==> OpensGroup(c, k, groupFirst)
      decreases last + 1 - groupFirst
    {
      var packets;
      packets, groupFirst := BuildNextGroup(s, c, interval, k, groupFirst, datagrams);
      datagrams := datagrams + packets;
      k := k + 1;
    }
    BuildingEnds(s, c, interval, datagrams);
  }

  // ----- Building the round -----

  ghost predicate RoundFits(s: Source, c: Context) {
    SourceFits(s, c) && c.disclosureDelay <= c.FinalInterval()
  }

  /** What a built round consists of, indexed by logical interval; index 0 is unused. */
  ghost predicate IsRound(s: Source, c: Context, round: seq<seq<seq<Byte>>>)
    requires RoundFits(s, c)
  {
    && |round| == c.FinalInterval() + c.disclosureDelay + 1 && round[0] == []
    && (forall i: nat :: 0 < i <= c.FinalInterval() ==> HoldsInterval(s, c, i, round[i]))
    && (forall i: nat :: c.FinalInterval() < i < |round| ==> round[i] == [Wire(TailAt(s, c, i))])
  }

  /** The key index of a trailing interval, as a 32-bit difference. */
  function TailKeyIndex(interval: nat, delay: nat): nat {
    (interval + (UINT32_MAX + 1) - delay % (UINT32_MAX + 1)) % (UINT32_MAX + 1)
  }

  lemma TailKeyIndexValue(interval: nat, delay: nat, final: nat)
    requires 0 < delay && final < interval <= final + delay <= UINT32_MAX
    ensures interval > delay ==> TailKeyIndex(interval, delay) == interval - delay
    ensures interval <= delay ==> TailKeyIndex(interval, delay) == 0 || TailKeyIndex(interval, delay) > final
  {
  }

  method BuildDataInterval(s: Source, c: Context, interval: nat) returns (datagrams: seq<seq<Byte>>)
    requires SourceFits(s, c) && 0 < interval <= c.FinalInterval()
    ensures HoldsInterval(s, c, interval, datagrams)
  {
    hide Wires, FirstPacket, LastPacket, Quo;
    if c.mode == Native {
      datagrams := BuildNativeInterval(s, c, interval);
    } else {
      datagrams := BuildImprovedInterval(s, c, interval);
    }
  }

  method BuildTail(s: Source, c: Context, interval: nat) returns (r: Result<seq<Byte>, BuildError>)
    requires SourceFits(s, c) && c.FinalInterval() < interval <= c.FinalInterval() + c.disclosureDelay
    ensures r.Ok? <==> c.disclosureDelay < interval
    ensures r.Ok? ==> r.value == Wire(TailAt(s, c, interval))
    ensures r.Err? ==> r.error == NoSuchKey
  {
    TailKeyIndexValue(interval, c.disclosureDelay, c.FinalInterval());
    hide Wire, TailKeyIndex, Quo;
    var key := KeyChain.DataKey(s.keys, TailKeyIndex(interval, c.disclosureDelay));
    if key.Err? { return Err(NoSuchKey); }
    var datagram := Encode(Disclosure(s.chainId, interval, key.value), c);
    r := Ok(datagram.value);
  }

  /** Builds every interval. The build fails exactly when the delay exceeds the number of data intervals: the first
      trailing interval would then disclose a key that does not exist. */
  method BuildRound(s: Source, c: Context) returns (r: Result<seq<seq<seq<Byte>>>, BuildError>)
    requires SourceFits(s, c)
    ensures r.Ok? <==> c.disclosureDelay <= c.FinalInterval()
    ensures r.Err? ==> r.error == NoSuchKey
    ensures r.Ok? ==> IsRound(s, c, r.value)
  {
    var round: seq<seq<seq<Byte>>> := [[]];
    var f := c.FinalInterval();
    hide Wire, HoldsInterval, Quo, TailAt;
    for interval := 1 to f + 1
      invariant |round| == interval && round[0] == []
      invariant forall i: nat :: 0 < i < interval ==> HoldsInterval(s, c, i, round[i])
    {
      var datagrams := BuildDataInterval(s, c, interval);
      round := round + [datagrams];
    }
    for interval := f + 1 to f + c.disclosureDelay + 1
      invariant interval > f + 1 ==> c.disclosureDelay <= f
      invariant |round| == interval && round[0] == []
      invariant forall i: nat :: 0 < i <= f ==> HoldsInterval(s, c, i, round[i])
      invariant c.disclosureDelay <= f ==> forall i: nat :: f < i < interval ==> round[i] == [Wire(TailAt(s, c, i))]
    {
      var datagram := BuildTail(s, c, interval);
      if datagram.Err? { return Err(datagram.error); }
      round := round + [[datagram.value]];
    }
    r := Ok(round);
  }

  /** Configuring a sender refuses an oversized round before it builds anything. */
  method ConfigureSender(s: Source, c: Context) returns (r: Result<seq<seq<seq<Byte>>>, BuildError>)
    requires SourceMatches(s, c)
    ensures r.Ok? <==> c.totalPacketCount <= MAX_PACKET_COUNT && c.disclosureDelay <= c.FinalInterval()
    ensures r.Err? ==> r.error == if c.totalPacketCount > MAX_PACKET_COUNT then TooManyPackets else NoSuchKey
    ensures r.Ok? ==> IsRound(s, c, r.value)
  {
    if c.totalPacketCount > MAX_PACKET_COUNT { return Err(TooManyPackets); }
    r := BuildRound(s, c);
  }

  /** One packet, one interval, a delay of two: an accepted context for which there is no round to build, since the
      first trailing interval asks for key number 0. */
  lemma DelayBeyondRound(s: Source)
    requires 0 < s.chainId <= UINT64_MAX && |s.keys| == 2
    ensures var c := Context(Native, 1, 2, 1, 0, 0);
            && SourceFits(s, c) && c.disclosureDelay > c.FinalInterval()
            && TailKeyIndex(c.FinalInterval() + 1, c.disclosureDelay) == 0
            && KeyChain.DataKey(s.keys, TailKeyIndex(c.FinalInterval() + 1, c.disclosureDelay)).Err?
  {
    DivisionUnique(0, 1, 0, 0);
    hide Quo;
  }

  // ----- Where the keys travel -----

  /** The key of a packet, if it carries one. */
  function KeyOf(p: Packet): Option<Block> {
    if p.Disclosure? then Some(p.disclosed) else p.key
  }

  /** Whatever a receiver accepts, forged or genuine: a datagram gives it a key only if it is a disclosure or the first
      packet of an interval after the delay, and the key it stands for has a number between 1 and the last interval. */
  lemma AcceptedKeyInRange(b: seq<Byte>, c: Context)
    requires c.Valid() && Decode(b, c).Ok?
    ensures var p := Decode(b, c).value;
            && (KeyOf(p).Some? ==> 1 <= p.interval - c.disclosureDelay <= c.FinalInterval())
            && (KeyOf(p).Some? <==>
                  p.Disclosure? || (p.interval > c.disclosureDelay && p.index == FirstPacket(c, p.interval)))
  {
    hide FromBigEndian, Quo, Rem, FirstPacket;
    var p := Decode(b, c).value;
    if p.Data? {
      IntervalWithin(c, p.index);
      FirstCarriesKey(c, p.interval, p.index);
    }
  }

  lemma PacketKey(s: Source, c: Context, index: nat, i: nat)
    requires SourceFits(s, c) && 0 < index <= c.totalPacketCount && i == c.ExpectedInterval(index) <= c.FinalInterval()
    ensures KeyOf(PacketAt(s, c, index)) ==
            if index == FirstPacket(c, i) && i > c.disclosureDelay then Some(s.keys[i - c.disclosureDelay]) else None
  {
    FirstCarriesKey(c, i, index);
    hide DetailsAt, Quo, Rem;
  }

  lemma SlotOfInterval(s: Source, c: Context, wires: seq<seq<Byte>>, interval: nat, position: nat) returns (index: nat)
    requires SourceFits(s, c) && 0 < interval <= c.FinalInterval()
    requires HoldsInterval(s, c, interval, wires) && position < |wires|
    ensures index == FirstPacket(c, interval) + position <= c.totalPacketCount
    ensures c.ExpectedInterval(index) == interval && wires[position] == Wire(PacketAt(s, c, index))
  {
    var first, last := FirstPacket(c, interval), LastPacket(c, interval);
    index := first + position;
    assert c.Valid() && first <= last <= c.totalPacketCount && wires == Wires(s, c, first, last + 1);
    hide SourceMatches, HoldsInterval, FirstPacket, LastPacket, Context.ValidWithCap, Context.ExpectedInterval, Wires,
         Wire, PacketAt;
    IntervalRange(c, interval, index);
    WireInSlot(s, c, first, last + 1, position);
  }

  // ----- What a built round carries -----

  lemma SlotPacket(s: Source, c: Context, round: seq<seq<seq<Byte>>>, interval: nat, position: nat) returns (index: nat)
    requires RoundFits(s, c) && IsRound(s, c, round) && 0 < interval <= c.FinalInterval()
    requires position < |round[interval]|
    ensures index == (interval - 1) * c.packetsPerInterval + 1 + position <= c.totalPacketCount
    ensures c.ExpectedInterval(index) == interval && Decode(round[interval][position], c) == Ok(PacketAt(s, c, index))
  {
    hide Quo, Rem, Rejection, Decode, Wire, HoldsInterval, PacketAt;
    index := SlotOfInterval(s, c, round[interval], interval, position);
    PacketEncodable(s, c, index);
    hide SourceFits, RoundFits, IsRound;
    DecodeEncode(PacketAt(s, c, index), c);
  }

  lemma PacketContents(s: Source, c: Context, index: nat)
    requires SourceFits(s, c) && 0 < index <= c.totalPacketCount
    ensures var p := PacketAt(s, c, index);
            && p.Data? && p.chainId == s.chainId && p.interval == c.ExpectedInterval(index) && p.index == index
            && p.message == s.message(index) && p.details == DetailsAt(s, c, index)
  {
    hide DetailsAt, Quo, Rem;
  }

  /** What a receiver decodes from slot k of data interval i: the data packet with index (i-1)*ppi+1+k, the message of
      that index and, in native mode, the MAC of that index. In improved mode exactly the packets whose index is a
      multiple of the group size, and the last one of the round, carry group details: those of the packets since the
      previous multiple. */
  lemma SlotContents(s: Source, c: Context, round: seq<seq<seq<Byte>>>, interval: nat, position: nat)
      returns (p: Packet, first: nat)
    requires RoundFits(s, c) && IsRound(s, c, round) && 0 < interval <= c.FinalInterval()
    requires position < |round[interval]|
    ensures Decode(round[interval][position], c) == Ok(p) && p.Data?
    ensures p.index == (interval - 1) * c.packetsPerInterval + 1 + position <= c.totalPacketCount
    ensures p.chainId == s.chainId && p.interval == interval && p.message == s.message(p.index)
    ensures c.mode == Native ==> p.details == NativeDetails(s.mac(p.index))
    ensures c.mode == Improved ==>
              && 0 < first <= p.index < first + c.groupSize && (first - 1) % c.groupSize == 0
              && p.details == ImprovedDetails(if p.index % c.groupSize == 0 || p.index == c.totalPacketCount
                                              then Some(s.group(first, p.index)) else None)
  {
    first := 0;
    var index := SlotPacket(s, c, round, interval, position);
    p := PacketAt(s, c, index);
    PacketContents(s, c, index);
    hide IsRound, RoundFits, SourceFits, Decode, Context.ValidWithCap, PacketAt;
    if c.mode == Improved { first := GroupDetails(s, c, index); }
    hide DetailsAt;
  }

  lemma GroupDetails(s: Source, c: Context, index: nat) returns (first: nat)
    requires c.Valid() && c.mode == Improved && 0 < index <= c.totalPacketCount
    ensures 0 < first <= index < first + c.groupSize && (first - 1) % c.groupSize == 0
    ensures DetailsAt(s, c, index) ==
            ImprovedDetails(if index % c.groupSize == 0 || index == c.totalPacketCount
                            then Some(s.group(first, index)) else None)
  {
    first := GroupStart(c, index);
    Division(index - 1, c.groupSize);
    MultipleMod(Quo(index - 1, c.groupSize), c.groupSize);
    OneEndPerGroup(c, index);
  }

  /** Each packet of the round travels in one slot: number (index-1) mod ppi of interval (index-1)/ppi + 1. */
  lemma PacketTravels(s: Source, c: Context, round: seq<seq<seq<Byte>>>, index: nat) returns (interval: nat)
    requires RoundFits(s, c) && IsRound(s, c, round) && 0 < index <= c.totalPacketCount
    ensures interval == (index - 1) / c.packetsPerInterval + 1 <= c.FinalInterval()
    ensures var position := (index - 1) % c.packetsPerInterval;
            && position < |round[interval]| && Decode(round[interval][position], c).Ok?
            && Decode(round[interval][position], c).value.Data?
            && Decode(round[interval][position], c).value.index == index
  {
    interval := c.ExpectedInterval(index);
    IntervalWithin(c, index);
    IntervalRange(c, interval, index);
    Division(index - 1, c.packetsPerInterval);
    var position := Rem(index - 1, c.packetsPerInterval);
    assert FirstPacket(c, interval) + position == index by { SplitProduct(interval, c.packetsPerInterval); }
    assert HoldsInterval(s, c, interval, round[interval]);
    hide Decode, IsRound, HoldsInterval, Wires;
    var p, _ := SlotContents(s, c, round, interval, position);
  }

  /** A trailing interval sends one datagram, which discloses the key of the interval one delay before it. */
  lemma TailContents(s: Source, c: Context, round: seq<seq<seq<Byte>>>, interval: nat)
    requires RoundFits(s, c) && IsRound(s, c, round) && c.FinalInterval() < interval < |round|
    ensures |round[interval]| == 1
    ensures Decode(round[interval][0], c) == Ok(Disclosure(s.chainId, interval, s.keys[interval - c.disclosureDelay]))
  {
    hide Quo, Decode, Wire;
    TailEncodable(s, c, interval);
    DecodeEncode(TailAt(s, c, interval), c);
  }

  /** A data interval sends its packets and nothing else: a full interval each, and what is left in the last. */
  lemma IntervalSlots(s: Source, c: Context, round: seq<seq<seq<Byte>>>, interval: nat)
    requires RoundFits(s, c) && IsRound(s, c, round) && 0 < interval <= c.FinalInterval()
    ensures |round[interval]| == if interval < c.FinalInterval() then c.packetsPerInterval
                                 else c.totalPacketCount - (c.FinalInterval() - 1) * c.packetsPerInterval
  {
    assert HoldsInterval(s, c, interval, round[interval]);
    hide IsRound, Wires, HoldsInterval, Quo;
    IntervalNonempty(c, interval);
    SplitProduct(interval, c.packetsPerInterval);
    if interval < c.FinalInterval() { SplitProduct(interval + 1, c.packetsPerInterval); }
  }

  /** A slot of the round holds an accepted datagram, and it discloses a key exactly when it is the first of an interval
      after the delay; that key is number interval-delay. So each key 1..F travels in exactly one slot: the first data
      packet of interval k+delay if there is one, else the trailing disclosure of interval k+delay. */
  lemma KeyInSlot(s: Source, c: Context, round: seq<seq<seq<Byte>>>, interval: nat, position: nat) returns (p: Packet)
    requires RoundFits(s, c) && IsRound(s, c, round) && 0 < interval < |round| && position < |round[interval]|
    ensures Decode(round[interval][position], c) == Ok(p)
    ensures p.interval == interval && (p.Data? <==> interval <= c.FinalInterval())
    ensures KeyOf(p) ==
            if position == 0 && interval > c.disclosureDelay then Some(s.keys[interval - c.disclosureDelay]) else None
  {
    hide Quo, Rem, Rejection, Decode, Wire, HoldsInterval;
    if interval <= c.FinalInterval() {
      var index := SlotOfInterval(s, c, round[interval], interval, position);
      p := PacketAt(s, c, index);
      PacketKey(s, c, index, interval);
      PacketEncodable(s, c, index);
      hide FirstPacket, SourceFits, RoundFits, IsRound;
      DecodeEncode(p, c);
    } else {
      p := TailAt(s, c, interval);
      assert Rejection(p, c) == None by { TailEncodable(s, c, interval); }
      DecodeEncode(p, c);
    }
  }

  lemma TailEncodable(s: Source, c: Context, interval: nat)
    requires RoundFits(s, c) && c.FinalInterval() < interval <= c.FinalInterval() + c.disclosureDelay
    ensures TailAt(s, c, interval).WellFormed() && Rejection(TailAt(s, c, interval), c) == None
  {
  }

  lemma SlotExists(s: Source, c: Context, round: seq<seq<seq<Byte>>>, interval: nat)
    requires RoundFits(s, c) && IsRound(s, c, round) && 0 < interval < |round|
    ensures round[interval] != []
  {
    hide Quo, FirstPacket, LastPacket;
    if interval <= c.FinalInterval() {
      IntervalNonempty(c, interval);
      assert HoldsInterval(s, c, interval, round[interval]);
    }
  }

  /** Each key index 1..F is disclosed, in the first slot of interval index+delay, and the disclosed key verifies
      against the commitment. */
  lemma KeyDisclosed(s: Source, c: Context, round: seq<seq<seq<Byte>>>, hash: KeyChain.Hash, seed: seq<Byte>,
      index: nat)
    returns (p: Packet)
    requires RoundFits(s, c) && IsRound(s, c, round)
    requires KeyChain.IsChain(hash, seed, s.keys) && 0 < index <= c.FinalInterval()
    ensures round[index + c.disclosureDelay] != [] && Decode(round[index + c.disclosureDelay][0], c) == Ok(p)
    ensures KeyOf(p) == Some(s.keys[index]) && p.interval - c.disclosureDelay == index
    ensures KeyChain.Iterate(hash, s.keys[index], p.interval - c.disclosureDelay) == s.keys[0]
  {
    var slot := index + c.disclosureDelay;
    assert c.Valid() && |s.keys| == c.FinalInterval() + 1 && |round| == c.FinalInterval() + c.disclosureDelay + 1;
    hide Decode, Quo, KeyChain.Iterate, KeyChain.IsChain, KeyOf, IsRound, Context.ExpectedInterval,
         Context.ValidWithCap, RoundFits, SourceFits, SourceMatches;
    KeyChain.KeysVerify(hash, seed, s.keys, index);
    SlotExists(s, c, round, slot);
    p := KeyInSlot(s, c, round, slot, 0);
  }
}
