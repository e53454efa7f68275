/** The byte strings that packet MACs and fast-group tags are computed over: each encoding is injective, and no string
    is ever an input of both kinds. */
module MacInput {
  import opened Bytes

  datatype PacketInput = PacketInput(sender: seq<Byte>, chainId: nat, interval: nat, index: nat, message: Block) {
    /** What the constructor accepts. */
    predicate Valid() {
      && 0 < |sender| <= 0xFFFF && chainId <= UINT64_MAX
      && 0 < interval <= UINT32_MAX && 0 < index <= UINT32_MAX
    }
  }

  /** A group whose slots hold consecutive packets from `first`; a missing packet leaves its slot empty. */
  datatype GroupInput = GroupInput(sender: seq<Byte>, chainId: nat, interval: nat, group: nat, first: nat,
                                   slots: seq<Option<Block>>)
  {
    predicate Valid() {
      && 0 < |sender| <= 0xFFFF && chainId <= UINT64_MAX
      && 0 < interval <= UINT32_MAX && 0 < group <= UINT32_MAX && 0 < first <= UINT32_MAX
      && 0 < |slots| <= UINT32_MAX
      && forall i :: 0 <= i < |slots| && slots[i].Some? ==> first + i <= UINT32_MAX
    }

    predicate Complete() {
      forall i :: 0 <= i < |slots| ==> slots[i].Some?
    }
  }

  datatype EncodeError = MissingPackets | TooManyTags

  // ----- Encodings -----

  function Sender(id: seq<Byte>): (s: seq<Byte>)
    ensures |s| == 2 + |id|
  {
    BigEndian(|id|, 2) + id
  }

  function PacketBytes(p: PacketInput): (s: seq<Byte>)
    ensures |s| == 50 + |p.sender|
  {
    Sender(p.sender) + (BigEndian(p.chainId, 8) + BigEndian(p.interval, 4) + BigEndian(p.index, 4) + p.message)
  }

  /** The first n slots, each as packet index and message. */
  function SlotBytes(g: GroupInput, n: nat): (s: seq<Byte>)
    requires g.Complete() && n <= |g.slots|
    ensures |s| == 36 * n
  {
    if n == 0 then [] else SlotBytes(g, n - 1) + (BigEndian(g.first + n - 1, 4) + g.slots[n - 1].value)
  }

  function GroupHead(g: GroupInput): (s: seq<Byte>)
    ensures |s| == 20
  {
    BigEndian(g.chainId, 8) + BigEndian(g.interval, 4) + BigEndian(g.group, 4) + BigEndian(|g.slots|, 4)
  }

  function GroupBytes(g: GroupInput, taus: seq<Block>): (s: seq<Byte>)
    requires g.Complete()
    ensures |s| == 26 + |g.sender| + 36 * |g.slots| + 32 * |taus|
  {
    Sender(g.sender) + (GroupHead(g) + (SlotBytes(g, |g.slots|) + (BigEndian(|taus|, 4) + Join(taus))))
  }

  method AppendSender(buffer: ByteBuffer, id: seq<Byte>)
    requires |id| <= 0xFFFF
    modifies buffer
    ensures buffer.data == old(buffer.data) + Sender(id)
  {
    Pow256Values();
    buffer.AppendUint(|id|, 2);
    buffer.AppendBytes(id);
  }

  method EncodePacket(p: PacketInput) returns (data: seq<Byte>)
    requires p.Valid()
    ensures data == PacketBytes(p)
  {
    Pow256Values();
    hide BigEndian, Sender;
    var buffer := new ByteBuffer();
    AppendSender(buffer, p.sender);
    buffer.AppendUint(p.chainId, 8);
    buffer.AppendUint(p.interval, 4);
    buffer.AppendUint(p.index, 4);
    buffer.AppendBytes(p.message);
    data := buffer.data;
  }

  method EncodeGroup(g: GroupInput, taus: seq<Block>) returns (r: Result<seq<Byte>, EncodeError>)
    requires g.Valid()
    ensures !g.Complete() ==> r == Err(MissingPackets)
    ensures g.Complete() && |taus| > UINT32_MAX ==> r == Err(TooManyTags)
    ensures g.Complete() && |taus| <= UINT32_MAX ==> r == Ok(GroupBytes(g, taus))
  {
    for i := 0 to |g.slots|
      invariant forall j :: 0 <= j < i ==> g.slots[j].Some?
    {
      if g.slots[i] == None { return Err(MissingPackets); }
    }
    if |taus| > UINT32_MAX { return Err(TooManyTags); }
    var data := WriteGroup(g, taus);
    r := Ok(data);
  }

  method AppendHead(buffer: ByteBuffer, g: GroupInput)
    requires g.Valid()
    modifies buffer
    ensures buffer.data == old(buffer.data) + GroupHead(g)
  {
    Pow256Values();
    hide BigEndian, Pow256;
    buffer.AppendUint(g.chainId, 8);
    buffer.AppendUint(g.interval, 4);
    buffer.AppendUint(g.group, 4);
    buffer.AppendUint(|g.slots|, 4);
  }

  method WriteGroup(g: GroupInput, taus: seq<Block>) returns (data: seq<Byte>)
    requires g.Valid() && g.Complete() && |taus| <= UINT32_MAX
    ensures data == GroupBytes(g, taus)
  {
    Pow256Values();
    hide BigEndian, Pow256, Sender, GroupHead, SlotBytes, Join;
    var buffer := new ByteBuffer();
    AppendSender(buffer, g.sender);
    AppendHead(buffer, g);
    AppendSlots(buffer, g);
    buffer.AppendUint(|taus|, 4);
    AppendTags(buffer, taus);
    data := buffer.data;
  }

  method AppendSlots(buffer: ByteBuffer, g: GroupInput)
    requires g.Valid() && g.Complete()
    modifies buffer
    ensures buffer.data == old(buffer.data) + SlotBytes(g, |g.slots|)
  {
    Pow256Values();
    hide BigEndian;
    for i := 0 to |g.slots|
      invariant buffer.data == old(buffer.data) + SlotBytes(g, i)
    {
      assert g.slots[i].Some?;
      buffer.AppendUint(g.first + i, 4);
      buffer.AppendBytes(g.slots[i].value);
    }
  }

  method AppendTags(buffer: ByteBuffer, taus: seq<Block>)
    modifies buffer
    ensures buffer.data == old(buffer.data) + Join(taus)
  {
    for i := 0 to |taus|
      invariant buffer.data == old(buffer.data) + Join(taus[..i])
    {
      buffer.AppendBytes(taus[i]);
      assert taus[..i + 1][..i] == taus[..i];
    }
    assert taus[..|taus|] == taus;
  }

  // ----- Injectivity -----

  // ----- Where the fields are -----

  /** The input of a packet: the length of the sender name, the name, and then chain, interval, index and message. */
  lemma PacketLayout(p: PacketInput)
    ensures var b, n := PacketBytes(p), |p.sender|;
            && |b| == n + 50 && b[..2] == BigEndian(n, 2) && b[2..n + 2] == p.sender
            && b[n + 2..n + 10] == BigEndian(p.chainId, 8) && b[n + 10..n + 14] == BigEndian(p.interval, 4)
            && b[n + 14..n + 18] == BigEndian(p.index, 4) && b[n + 18..] == p.message
  {
    hide BigEndian;
  }

  /** Slot k is its packet index and its message. */
  lemma {:induction false} SlotLayout(g: GroupInput, n: nat, k: nat)
    requires g.Complete() && k < n <= |g.slots|
    ensures SlotBytes(g, n)[36 * k..36 * k + 4] == BigEndian(g.first + k, 4)
    ensures SlotBytes(g, n)[36 * k + 4..36 * k + 36] == g.slots[k].value
  {
    var before := SlotBytes(g, n - 1);
    assert SlotBytes(g, n)[..36 * (n - 1)] == before;
    hide BigEndian;
    if k < n - 1 {
      SlotLayout(g, n - 1, k);
      assert SlotBytes(g, n)[36 * k..36 * k + 4] == before[36 * k..36 * k + 4];
      assert SlotBytes(g, n)[36 * k + 4..36 * k + 36] == before[36 * k + 4..36 * k + 36];
    }
  }

  /** The input of a group: the sender, the fixed fields, the slots, the number of tags and the tags. */
  lemma GroupParts(g: GroupInput, taus: seq<Block>)
    requires g.Complete()
    ensures var b, n, m := GroupBytes(g, taus), |g.sender|, |g.sender| + 22 + 36 * |g.slots|;
            && |b| == m + 4 + 32 * |taus| && b[..2] == BigEndian(n, 2) && b[2..n + 2] == g.sender
            && b[n + 2..n + 22] == GroupHead(g)
            && b[n + 22..m] == SlotBytes(g, |g.slots|) && b[m..m + 4] == BigEndian(|taus|, 4)
            && b[m + 4..] == Join(taus)
  {
    hide BigEndian, SlotBytes, Join, GroupHead;
  }

  /** The fixed fields of a group: chain, interval, group and number of slots. */
  lemma HeadLayout(g: GroupInput)
    ensures var h := GroupHead(g);
            && h[..8] == BigEndian(g.chainId, 8) && h[8..12] == BigEndian(g.interval, 4)
            && h[12..16] == BigEndian(g.group, 4) && h[16..] == BigEndian(|g.slots|, 4)
  {
    hide BigEndian;
  }

  lemma SplitEqual(a: seq<Byte>, b: seq<Byte>, c: seq<Byte>, d: seq<Byte>)
    requires |a| == |c| && a + b == c + d
    ensures a == c && b == d
  {
    assert (a + b)[..|a|] == a && (c + d)[..|c|] == c;
    assert (a + b)[|a|..] == b && (c + d)[|c|..] == d;
  }

  lemma NumberEqual(a: nat, b: nat, n: nat, x: seq<Byte>, y: seq<Byte>)
    requires a < Pow256(n) && b < Pow256(n) && BigEndian(a, n) + x == BigEndian(b, n) + y
    ensures a == b && x == y
  {
    SplitEqual(BigEndian(a, n), x, BigEndian(b, n), y);
    BigEndianInjective(a, b, n);
  }

  lemma SenderEqual(a: seq<Byte>, b: seq<Byte>, x: seq<Byte>, y: seq<Byte>)
    requires |a| <= 0xFFFF && |b| <= 0xFFFF && Sender(a) + x == Sender(b) + y
    ensures a == b && x == y
  {
    Pow256Values();
    assert Sender(a) + x == BigEndian(|a|, 2) + (a + x) && Sender(b) + y == BigEndian(|b|, 2) + (b + y);
    NumberEqual(|a|, |b|, 2, a + x, b + y);
    SplitEqual(a, x, b, y);
  }

  /** Different packets never have the same MAC input. */
  lemma PacketInjective(p: PacketInput, q: PacketInput)
    requires p.Valid() && q.Valid() && PacketBytes(p) == PacketBytes(q)
    ensures p == q
  {
    Pow256Values();
    var x := BigEndian(p.chainId, 8) + BigEndian(p.interval, 4) + BigEndian(p.index, 4) + p.message;
    var y := BigEndian(q.chainId, 8) + BigEndian(q.interval, 4) + BigEndian(q.index, 4) + q.message;
    SenderEqual(p.sender, q.sender, x, y);
    hide BigEndian, Pow256;
    var pi, qi := BigEndian(p.index, 4) + p.message, BigEndian(q.index, 4) + q.message;
    assert x == BigEndian(p.chainId, 8) + (BigEndian(p.interval, 4) + pi);
    assert y == BigEndian(q.chainId, 8) + (BigEndian(q.interval, 4) + qi);
    NumberEqual(p.chainId, q.chainId, 8, BigEndian(p.interval, 4) + pi, BigEndian(q.interval, 4) + qi);
    NumberEqual(p.interval, q.interval, 4, pi, qi);
    NumberEqual(p.index, q.index, 4, p.message, q.message);
  }

  lemma HeadEqual(g: GroupInput, h: GroupInput, x: seq<Byte>, y: seq<Byte>)
    requires g.Valid() && h.Valid() && GroupHead(g) + x == GroupHead(h) + y
    ensures g.chainId == h.chainId && g.interval == h.interval && g.group == h.group && |g.slots| == |h.slots| && x == y
  {
    Pow256Values();
    hide BigEndian, Pow256;
    var gs, hs := BigEndian(|g.slots|, 4) + x, BigEndian(|h.slots|, 4) + y;
    var gg, hg := BigEndian(g.group, 4) + gs, BigEndian(h.group, 4) + hs;
    assert GroupHead(g) + x == BigEndian(g.chainId, 8) + (BigEndian(g.interval, 4) + gg);
    assert GroupHead(h) + y == BigEndian(h.chainId, 8) + (BigEndian(h.interval, 4) + hg);
    NumberEqual(g.chainId, h.chainId, 8, BigEndian(g.interval, 4) + gg, BigEndian(h.interval, 4) + hg);
    NumberEqual(g.interval, h.interval, 4, gg, hg);
    NumberEqual(g.group, h.group, 4, gs, hs);
    NumberEqual(|g.slots|, |h.slots|, 4, x, y);
  }

  lemma {:induction false} SlotsEqual(g: GroupInput, h: GroupInput, n: nat)
    requires g.Valid() && h.Valid() && g.Complete() && h.Complete() && n <= |g.slots| && n <= |h.slots|
    requires SlotBytes(g, n) == SlotBytes(h, n)
    ensures g.slots[..n] == h.slots[..n] && (n > 0 ==> g.first == h.first)
  {
    if n > 0 {
      var x, y := BigEndian(g.first + n - 1, 4) + g.slots[n - 1].value,
        BigEndian(h.first + n - 1, 4) + h.slots[n - 1].value;
      SplitEqual(SlotBytes(g, n - 1), x, SlotBytes(h, n - 1), y);
      Pow256Values();
      hide BigEndian, Pow256;
      NumberEqual(g.first + n - 1, h.first + n - 1, 4, g.slots[n - 1].value, h.slots[n - 1].value);
      SlotsEqual(g, h, n - 1);
      assert g.slots[..n] == g.slots[..n - 1] + [g.slots[n - 1]] && h.slots[..n] == h.slots[..n - 1] + [h.slots[n - 1]];
    }
  }

  lemma {:induction false} JoinInjective(a: seq<Block>, b: seq<Block>)
    requires Join(a) == Join(b)
    ensures a == b
  {
    if a != [] {
      var n := |a| - 1;
      SplitEqual(Join(a[..n]), a[n], Join(b[..n]), b[n]);
      JoinInjective(a[..n], b[..n]);
      assert a == a[..n] + [a[n]] && b == b[..n] + [b[n]];
    }
  }

  /** Different complete groups or tag vectors never have the same fast-group input. */
  lemma GroupInjective(g: GroupInput, taus: seq<Block>, h: GroupInput, others: seq<Block>)
    requires g.Valid() && h.Valid() && g.Complete() && h.Complete()
    requires |taus| <= UINT32_MAX && |others| <= UINT32_MAX && GroupBytes(g, taus) == GroupBytes(h, others)
    ensures g == h && taus == others
  {
    var gt, ht := BigEndian(|taus|, 4) + Join(taus), BigEndian(|others|, 4) + Join(others);
    var gs, hs := SlotBytes(g, |g.slots|) + gt, SlotBytes(h, |h.slots|) + ht;
    SenderEqual(g.sender, h.sender, GroupHead(g) + gs, GroupHead(h) + hs);
    HeadEqual(g, h, gs, hs);
    hide BigEndian, SlotBytes, Join, GroupHead;
    SplitEqual(SlotBytes(g, |g.slots|), gt, SlotBytes(h, |h.slots|), ht);
    SlotsEqual(g, h, |g.slots|);
    assert g.slots[..|g.slots|] == g.slots && h.slots[..|h.slots|] == h.slots;
    Pow256Values();
    NumberEqual(|taus|, |others|, 4, Join(taus), Join(others));
    JoinInjective(taus, others);
  }

  // ----- Separation -----

  /** No packet-MAC input is ever a fast-group input: the lengths would need 36n + 32t == 24. */
  lemma KindsSeparate(p: PacketInput, g: GroupInput, taus: seq<Block>)
    requires p.Valid() && g.Valid() && g.Complete()
    ensures PacketBytes(p) != GroupBytes(g, taus)
  {
    if PacketBytes(p) == GroupBytes(g, taus) {
      var x := BigEndian(p.chainId, 8) + BigEndian(p.interval, 4) + BigEndian(p.index, 4) + p.message;
      var y := GroupHead(g) + (SlotBytes(g, |g.slots|) + (BigEndian(|taus|, 4) + Join(taus)));
      hide BigEndian, SlotBytes, Join, GroupHead;
      SenderEqual(p.sender, g.sender, x, y);
      assert false;
    }
  }

  /** The length of the label from which the fast-group key is derived, under the key of the packet MACs. */
  const FAST_GROUP_LABEL_SIZE := |"FAST_GROUP_TAG"|

  /** Nor is a packet-MAC input ever that label, so deriving the fast-group key never coincides with a packet MAC. */
  lemma LabelSeparates(p: PacketInput, derivation: seq<Byte>)
    requires p.Valid() && |derivation| == FAST_GROUP_LABEL_SIZE
    ensures PacketBytes(p) != derivation
  {
    hide BigEndian, Sender;
    assert |PacketBytes(p)| > FAST_GROUP_LABEL_SIZE;
  }
}
