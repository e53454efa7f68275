/** The authentication datagrams of a round and the trusted context that fixes their conditional fields. */
module UdpPacket {
  import opened Bytes
  import opened Arithmetic

  const MAX_SAFE_TAU_COUNT := 2043
  const MAX_UDP_DATAGRAM_SIZE := 65507

  datatype Mode = Native | Improved

  datatype Context = Context(mode: Mode, packetsPerInterval: nat, disclosureDelay: nat, totalPacketCount: nat,
                             groupSize: nat, tauCount: nat)
  {
    /** What the constructor accepts, with the tag-count cap as a parameter. */
    predicate ValidWithCap(cap: nat) {
      && 0 < packetsPerInterval <= UINT32_MAX && 0 < totalPacketCount <= UINT32_MAX
      && 0 < disclosureDelay <= UINT32_MAX && groupSize <= UINT32_MAX
      && disclosureDelay <= UINT32_MAX - FinalInterval()
      && (mode == Native ==> groupSize == 0 && tauCount == 0)
      && (mode == Improved ==> groupSize > 0 && 0 < tauCount <= cap && packetsPerInterval % groupSize == 0)
    }

    predicate Valid() {
      ValidWithCap(MAX_SAFE_TAU_COUNT)
    }

    function ExpectedInterval(index: nat): (i: nat)
      requires 0 < packetsPerInterval && 0 < index
      ensures i > 0
    {
      Quo(index - 1, packetsPerInterval) + 1
    }

    function FinalInterval(): nat
      requires 0 < packetsPerInterval && 0 < totalPacketCount
    {
      ExpectedInterval(totalPacketCount)
    }

    predicate CarriesKey(interval: nat, index: nat)
      requires 0 < packetsPerInterval
    {
      index > 0 && interval > disclosureDelay && Rem(index - 1, packetsPerInterval) == 0
    }

    predicate IsGroupEnd(index: nat)
      requires mode == Improved ==> groupSize > 0
    {
      mode == Improved && index > 0 && (Rem(index, groupSize) == 0 || index == totalPacketCount)
    }
  }

  datatype Group = Group(taus: seq<Block>, fastTag: Block)

  datatype Details = NativeDetails(mac: Block) | ImprovedDetails(group: Option<Group>)

  datatype Packet =
    | Disclosure(chainId: nat, interval: nat, disclosed: Block)
    | Data(chainId: nat, interval: nat, index: nat, message: Block, key: Option<Block>, details: Details)
  {
    /** What the packet constructors accept. */
    predicate WellFormed() {
      && 0 < chainId <= UINT64_MAX && 0 < interval <= UINT32_MAX
      && (Data? ==> 0 < index <= UINT32_MAX)
      && (Data? && details.ImprovedDetails? && details.group.Some? ==> details.group.value.taus != [])
    }
  }

  // ----- Index arithmetic over a round -----

  lemma ExpectedIntervalMonotone(c: Context, i: nat, j: nat)
    requires 0 < c.packetsPerInterval && 0 < i <= j
    ensures c.ExpectedInterval(i) <= c.ExpectedInterval(j)
  {
    var p := c.packetsPerInterval;
    Division(i - 1, p);
    Division(j - 1, p);
    hide Quo, Rem;
    var a, b := Quo(i - 1, p), Quo(j - 1, p);
    if a > b {
      MulMonotone(p, b + 1, p, a);
      AddOneProduct(b, p);
      assert false;
    }
  }

  /** Interval i holds exactly the packets (i-1)*ppi+1 .. i*ppi. */
  lemma IntervalPackets(c: Context, index: nat, interval: nat)
    requires 0 < c.packetsPerInterval && 0 < index && 0 < interval
    ensures c.ExpectedInterval(index) == interval <==>
            c.packetsPerInterval * (interval - 1) < index
            <= c.packetsPerInterval * (interval - 1) + c.packetsPerInterval
  {
    var p := c.packetsPerInterval;
    Division(index - 1, p);
    if p * (interval - 1) < index <= p * (interval - 1) + p {
      DivisionUnique(index - 1, p, interval - 1, index - 1 - p * (interval - 1));
    }
  }

  /** The group of a packet, numbered from one. */
  function GroupOf(c: Context, index: nat): nat
    requires c.groupSize > 0 && index > 0
  {
    Quo(index - 1, c.groupSize) + 1
  }

  /** The last packet of a group: the next multiple of the group size, or the end of the round. */
  function GroupEnd(c: Context, index: nat): nat
    requires c.groupSize > 0 && 0 < index
  {
    if c.groupSize * GroupOf(c, index) <= c.totalPacketCount then c.groupSize * GroupOf(c, index)
    else c.totalPacketCount
  }

  lemma GroupBounds(c: Context, index: nat, g: nat)
    requires c.groupSize > 0 && index > 0 && g > 0
    ensures GroupOf(c, index) == g <==> c.groupSize * (g - 1) < index <= c.groupSize * g
  {
    assert c.groupSize * g == c.groupSize * (g - 1) + c.groupSize;
    Division(index - 1, c.groupSize);
    if c.groupSize * (g - 1) < index <= c.groupSize * g {
      DivisionUnique(index - 1, c.groupSize, g - 1, index - 1 - c.groupSize * (g - 1));
    }
  }

  lemma GroupEndBounds(c: Context, index: nat)
    requires c.groupSize > 0 && 0 < index <= c.totalPacketCount
    ensures index <= GroupEnd(c, index) <= c.totalPacketCount
    ensures GroupOf(c, GroupEnd(c, index)) == GroupOf(c, index)
  {
    var g := GroupOf(c, index);
    GroupBounds(c, index, g);
    GroupBounds(c, GroupEnd(c, index), g);
  }

  /** A multiple of the group size closes its own group. */
  lemma MultipleIsGroupEnd(c: Context, index: nat)
    requires c.groupSize > 0 && 0 < index
    ensures Rem(index, c.groupSize) == 0 <==> index == c.groupSize * GroupOf(c, index)
  {
    var g := c.groupSize;
    Division(index, g);
    if Rem(index, g) == 0 {
      var k := Quo(index, g);
      assert k > 0;
      assert g * (k - 1) == g * k - g;
      GroupBounds(c, index, k);
    } else if index == g * GroupOf(c, index) {
      DivisionUnique(index, g, GroupOf(c, index), 0);
    }
  }

  /** Each group has exactly one group-end packet, also when the last group is short. */
  lemma OneEndPerGroup(c: Context, index: nat)
    requires c.Valid() && c.mode == Improved && 0 < index <= c.totalPacketCount
    ensures c.IsGroupEnd(index) <==> index == GroupEnd(c, index)
    ensures c.IsGroupEnd(GroupEnd(c, index)) && GroupOf(c, GroupEnd(c, index)) == GroupOf(c, index)
  {
    GroupEndBounds(c, index);
    MultipleIsGroupEnd(c, index);
    MultipleIsGroupEnd(c, GroupEnd(c, index));
    GroupBounds(c, index, GroupOf(c, index));
    hide Quo, Rem, GroupOf;
  }

  /** A group that starts at or below a multiple of the group size also ends there. */
  lemma WithinMultiple(i: nat, j: nat, g: nat, k: nat, b: nat)
    requires k > 0 && g * (k - 1) < i <= g * b && j <= g * k
    ensures j <= g * b
  {
    if k > b {
      MulMonotone(g, b, g, k - 1);
      assert false;
    }
    MulMonotone(g, k, g, b);
  }

  lemma BoundaryProduct(p: nat, g: nat, m: nat, interval: nat)
    requires p == m * g && interval > 0
    ensures p * (interval - 1) + p == g * (m * (interval - 1) + m)
  {
    assert (m * g) * (interval - 1) == g * (m * (interval - 1));
    assert m * g == g * m;
  }

  /** No group crosses an interval boundary. */
  lemma GroupInsideInterval(c: Context, i: nat, j: nat)
    requires c.Valid() && c.mode == Improved && 0 < i <= j <= c.totalPacketCount && GroupOf(c, i) == GroupOf(c, j)
    ensures c.ExpectedInterval(i) == c.ExpectedInterval(j)
  {
    var g, p := c.groupSize, c.packetsPerInterval;
    var interval, k := c.ExpectedInterval(i), GroupOf(c, i);
    GroupBounds(c, i, k);
    GroupBounds(c, j, k);
    IntervalPackets(c, i, interval);
    IntervalPackets(c, j, interval);
    ExactDivision(p, g);
    QuotientNat(p, g);
    var m: nat := p / g;
    hide Quo, Rem, GroupOf;
    BoundaryProduct(p, g, m, interval);
    MulMonotone(0, 0, m, interval - 1);
    WithinMultiple(i, j, g, k, m * (interval - 1) + m);
  }
}
