/** The authentication datagram format. No field carries a type or a length: which fields are present follows from
    the packet index and the trusted context alone. */
module UdpCodec {
  import opened Bytes
  import opened Arithmetic
  import opened UdpPacket

  const FIXED_HEADER_SIZE := 16
  const DISCLOSURE_PACKET_SIZE := 48
  const DATA_PREFIX_SIZE := 48
  const MESSAGE_OFFSET := 16

  datatype EncodeError =
    | DisclosureOutsideRound
    | IndexBeyondRound
    | IntervalMismatch
    | KeyPresenceInvalid
    | WrongMode
    | GroupDetailsMisplaced
    | TauCountMismatch

  datatype DecodeError =
    | DatagramTooShort
    | InvalidAuthenticationContext
    | InvalidIntervalIndex
    | InvalidPacketIndex
    | DatagramLengthMismatch

  // ----- Encoding -----

  function Rejection(p: Packet, c: Context): Option<EncodeError>
    requires c.ValidWithCap(c.tauCount) && p.WellFormed()
  {
    if p.Disclosure? then
      if p.interval <= c.disclosureDelay || p.interval > c.FinalInterval() + c.disclosureDelay
      then Some(DisclosureOutsideRound) else None
    else if p.index > c.totalPacketCount then Some(IndexBeyondRound)
    else if p.interval != c.ExpectedInterval(p.index) then Some(IntervalMismatch)
    else if p.key.Some? != c.CarriesKey(p.interval, p.index) then Some(KeyPresenceInvalid)
    else if (c.mode == Native) != p.details.NativeDetails? then Some(WrongMode)
    else if c.mode == Native then None
    else if p.details.group.Some? != c.IsGroupEnd(p.index) then Some(GroupDetailsMisplaced)
    else if p.details.group.Some? && |p.details.group.value.taus| != c.tauCount then Some(TauCountMismatch)
    else None
  }

  function Header(chainId: nat, interval: nat, index: nat): (s: seq<Byte>)
    ensures |s| == FIXED_HEADER_SIZE
  {
    BigEndian(chainId, 8) + BigEndian(interval, 4) + BigEndian(index, 4)
  }

  function KeyBytes(key: Option<Block>): (s: seq<Byte>)
    ensures |s| == if key.Some? then 32 else 0
  {
    if key.Some? then key.value else []
  }

  function DetailBytes(d: Details): (s: seq<Byte>)
    ensures |s| == if d.NativeDetails? then 32 else if d.group.Some? then 32 * |d.group.value.taus| + 32 else 0
  {
    if d.NativeDetails? then d.mac
    else if d.group.Some? then Join(d.group.value.taus) + d.group.value.fastTag
    else []
  }

  /** The datagram of a packet, when the context accepts it. */
  function Wire(p: Packet): (s: seq<Byte>) {
    if p.Disclosure? then Header(p.chainId, p.interval, 0) + p.disclosed
    else Header(p.chainId, p.interval, p.index) + p.message + KeyBytes(p.key) + DetailBytes(p.details)
  }

  method AppendHeader(buffer: ByteBuffer, chainId: nat, interval: nat, index: nat)
    requires chainId <= UINT64_MAX && interval <= UINT32_MAX && index <= UINT32_MAX
    modifies buffer
    ensures buffer.data == old(buffer.data) + Header(chainId, interval, index)
  {
    Pow256Values();
    buffer.AppendUint(chainId, 8);
    buffer.AppendUint32(interval);
    buffer.AppendUint32(index);
  }

  method AppendBlocks(buffer: ByteBuffer, blocks: seq<Block>)
    modifies buffer
    ensures buffer.data == old(buffer.data) + Join(blocks)
  {
    for i := 0 to |blocks|
      invariant buffer.data == old(buffer.data) + Join(blocks[..i])
    {
      buffer.AppendBytes(blocks[i]);
      assert blocks[..i + 1][..i] == blocks[..i];
    }
    assert blocks[..|blocks|] == blocks;
  }

  /** The conditional fields of a data packet, checked one after another against the trusted context. */
  method ValidateData(p: Packet, c: Context) returns (rejected: Option<EncodeError>)
    requires c.Valid() && p.WellFormed() && p.Data?
    ensures rejected == Rejection(p, c)
  {
    hide Quo, Rem;
    if p.index > c.totalPacketCount { return Some(IndexBeyondRound); }
    if p.interval != c.ExpectedInterval(p.index) { return Some(IntervalMismatch); }
    var needsKey := c.CarriesKey(p.interval, p.index);
    if p.key.Some? != needsKey { return Some(KeyPresenceInvalid); }
    if c.mode == Native {
      return if p.details.NativeDetails? then None else Some(WrongMode);
    }
    if p.details.NativeDetails? { return Some(WrongMode); }
    var needsGroup := c.IsGroupEnd(p.index);
    if p.details.group.Some? != needsGroup { return Some(GroupDetailsMisplaced); }
    if needsGroup && |p.details.group.value.taus| != c.tauCount { return Some(TauCountMismatch); }
    rejected := None;
  }

  method Encode(p: Packet, c: Context) returns (r: Result<seq<Byte>, EncodeError>)
    requires c.Valid() && p.WellFormed()
    ensures Rejection(p, c).Some? ==> r == Err(Rejection(p, c).value)
    ensures Rejection(p, c).None? ==> r == Ok(Wire(p))
  {
    hide Quo, Rem, Header, Join;
    var buffer := new ByteBuffer();
    if p.Disclosure? {
      if p.interval <= c.disclosureDelay || p.interval > c.FinalInterval() + c.disclosureDelay {
        return Err(DisclosureOutsideRound);
      }
      AppendHeader(buffer, p.chainId, p.interval, 0);
      assert buffer.data == Header(p.chainId, p.interval, 0);
      buffer.AppendBytes(p.disclosed);
      return Ok(buffer.data);
    }
    var rejected := ValidateData(p, c);
    if rejected.Some? { return Err(rejected.value); }
    var data := EncodeData(p, c);
    r := Ok(data);
  }

  /** Appends the conditional fields that the context announces, in order. */
  method EncodeData(p: Packet, c: Context) returns (data: seq<Byte>)
    requires c.Valid() && p.WellFormed() && p.Data? && Rejection(p, c) == None
    ensures data == Wire(p)
  {
    assert (c.mode == Native) == p.details.NativeDetails? && p.index <= UINT32_MAX;
    hide Quo, Rem, Header, Join, Rejection;
    var buffer := new ByteBuffer();
    AppendHeader(buffer, p.chainId, p.interval, p.index);
    buffer.AppendBytes(p.message);
    if p.key.Some? { buffer.AppendBytes(p.key.value); }
    assert buffer.data == Header(p.chainId, p.interval, p.index) + p.message + KeyBytes(p.key);
    if c.mode == Native {
      buffer.AppendBytes(p.details.mac);
      return buffer.data;
    }
    if p.details.group.Some? {
      AppendBlocks(buffer, p.details.group.value.taus);
      buffer.AppendBytes(p.details.group.value.fastTag);
    }
    data := buffer.data;
  }

  // ----- Decoding -----

  function DetailLength(c: Context, index: nat): nat
    requires c.ValidWithCap(c.tauCount)
  {
    if c.mode == Native then 32 else if c.IsGroupEnd(index) then (c.tauCount + 1) * 32 else 0
  }

  function ExpectedLength(c: Context, interval: nat, index: nat): nat
    requires c.ValidWithCap(c.tauCount)
  {
    DATA_PREFIX_SIZE + (if c.CarriesKey(interval, index) then 32 else 0) + DetailLength(c, index)
  }

  function ParseDetails(c: Context, index: nat, s: seq<Byte>): Details
    requires c.ValidWithCap(c.tauCount) && |s| == DetailLength(c, index)
  {
    if c.mode == Native then NativeDetails(s)
    else if c.IsGroupEnd(index) then
      ImprovedDetails(Some(Group(Split(s[..32 * c.tauCount], c.tauCount), s[32 * c.tauCount..])))
    else ImprovedDetails(None)
  }

  function ParseData(c: Context, chainId: nat, interval: nat, index: nat, body: seq<Byte>): Packet
    requires c.ValidWithCap(c.tauCount) && |body| + FIXED_HEADER_SIZE == ExpectedLength(c, interval, index)
  {
    if c.CarriesKey(interval, index)
    then Data(chainId, interval, index, body[..32], Some(body[32..64]), ParseDetails(c, index, body[64..]))
    else Data(chainId, interval, index, body[..32], None, ParseDetails(c, index, body[32..]))
  }

  function Decode(b: seq<Byte>, c: Context): Result<Packet, DecodeError>
    requires c.ValidWithCap(c.tauCount)
  {
    if |b| < FIXED_HEADER_SIZE then Err(DatagramTooShort)
    else DecodeFields(FromBigEndian(b[..8]), FromBigEndian(b[8..12]), FromBigEndian(b[12..16]), b[16..], c)
  }

  function DecodeFields(chainId: nat, interval: nat, index: nat, body: seq<Byte>, c: Context)
    : Result<Packet, DecodeError>
    requires c.ValidWithCap(c.tauCount)
  {
    if chainId == 0 then Err(InvalidAuthenticationContext)
    else if interval == 0 then Err(InvalidIntervalIndex)
    else if index == 0 then
      if |body| != 32 then Err(DatagramLengthMismatch)
      else if interval <= c.disclosureDelay || interval > c.FinalInterval() + c.disclosureDelay
      then Err(InvalidIntervalIndex)
      else Ok(Disclosure(chainId, interval, body))
    else if index > c.totalPacketCount then Err(InvalidPacketIndex)
    else if interval != c.ExpectedInterval(index) then Err(InvalidIntervalIndex)
    else if |body| + FIXED_HEADER_SIZE != ExpectedLength(c, interval, index) then Err(DatagramLengthMismatch)
    else Ok(ParseData(c, chainId, interval, index, body))
  }

  method ReadBlock(reader: BinaryReader) returns (block: Block)
    requires reader.Valid() && reader.Remaining() >= 32
    modifies reader
    ensures reader.Valid() && reader.offset == old(reader.offset) + 32
    ensures block == reader.input[old(reader.offset)..old(reader.offset) + 32]
  {
    var r := reader.ReadBytes(32);
    block := r.value;
  }

  method ReadBlocks(reader: BinaryReader, n: nat) returns (blocks: seq<Block>)
    requires reader.Valid() && reader.Remaining() >= 32 * n
    modifies reader
    ensures reader.Valid() && reader.offset == old(reader.offset) + 32 * n
    ensures blocks == Split(reader.input[old(reader.offset)..old(reader.offset) + 32 * n], n)
  {
    blocks := [];
    ghost var start := reader.offset;
    for i := 0 to n
      invariant reader.Valid() && reader.offset == start + 32 * i
      invariant blocks == Split(reader.input[start..start + 32 * i], i)
    {
      var block := ReadBlock(reader);
      ghost var s := reader.input[start..start + 32 * (i + 1)];
      assert s[..32 * i] == reader.input[start..start + 32 * i];
      assert s[32 * i..] == block;
      blocks := blocks + [block];
    }
  }

  /** Reads the conditional fields that the context announces, in order. */
  method ReadData(reader: BinaryReader, c: Context, chainId: nat, interval: nat, index: nat) returns (p: Packet)
    requires c.Valid() && reader.Valid()
    requires reader.Remaining() + FIXED_HEADER_SIZE == ExpectedLength(c, interval, index)
    modifies reader
    ensures p == ParseData(c, chainId, interval, index, old(reader.input[reader.offset..]))
  {
    hide Quo, Rem;
    ghost var body := reader.input[reader.offset..];
    ghost var start := reader.offset;
    var message := ReadBlock(reader);
    assert message == body[..32];
    var key: Option<Block> := None;
    if c.CarriesKey(interval, index) {
      var k := ReadBlock(reader);
      key := Some(k);
      assert k == body[32..64];
    }
    ghost var tail := body[reader.offset - start..];
    assert tail == reader.input[reader.offset..];
    if c.mode == Native {
      var mac := ReadBlock(reader);
      assert mac == tail;
      return Data(chainId, interval, index, message, key, NativeDetails(mac));
    }
    var group: Option<Group> := None;
    if c.IsGroupEnd(index) {
      var taus := ReadBlocks(reader, c.tauCount);
      assert tail[..32 * c.tauCount] == reader.input[reader.offset - 32 * c.tauCount..reader.offset];
      var tag := ReadBlock(reader);
      assert tag == tail[32 * c.tauCount..];
      group := Some(Group(taus, tag));
    }
    p := Data(chainId, interval, index, message, key, ImprovedDetails(group));
  }

  method DecodePacket(b: seq<Byte>, c: Context) returns (r: Result<Packet, DecodeError>)
    requires c.Valid()
    ensures r == Decode(b, c)
  {
    if |b| < FIXED_HEADER_SIZE { return Err(DatagramTooShort); }
    var reader := new BinaryReader(b);
    var r0 := reader.ReadUint(8);
    var r1 := reader.ReadUint(4);
    var r2 := reader.ReadUint(4);
    var chainId, interval, index := r0.value, r1.value, r2.value;
    assert b[0..8] == b[..8];
    hide Quo, Rem;
    if chainId == 0 { return Err(InvalidAuthenticationContext); }
    if interval == 0 { return Err(InvalidIntervalIndex); }
    if index == 0 {
      if |b| != DISCLOSURE_PACKET_SIZE { return Err(DatagramLengthMismatch); }
      if interval <= c.disclosureDelay || interval > c.FinalInterval() + c.disclosureDelay {
        return Err(InvalidIntervalIndex);
      }
      var disclosed := ReadBlock(reader);
      assert disclosed == b[16..];
      return Ok(Disclosure(chainId, interval, disclosed));
    }
    if index > c.totalPacketCount { return Err(InvalidPacketIndex); }
    if interval != c.ExpectedInterval(index) { return Err(InvalidIntervalIndex); }
    if |b| != ExpectedLength(c, interval, index) { return Err(DatagramLengthMismatch); }
    var p := ReadData(reader, c, chainId, interval, index);
    r := Ok(p);
  }

  // ----- Round trips -----

  lemma HeaderRead(chainId: nat, interval: nat, index: nat, body: seq<Byte>)
    requires chainId <= UINT64_MAX && interval <= UINT32_MAX && index <= UINT32_MAX
    ensures var b := Header(chainId, interval, index) + body;
            && FromBigEndian(b[..8]) == chainId && FromBigEndian(b[8..12]) == interval
            && FromBigEndian(b[12..16]) == index && b[16..] == body
  {
    var b := Header(chainId, interval, index) + body;
    assert b[..8] == BigEndian(chainId, 8) && b[8..12] == BigEndian(interval, 4) && b[12..16] == BigEndian(index, 4);
    Pow256Values();
    ReadWritten(chainId, 8);
    ReadWritten(interval, 4);
    ReadWritten(index, 4);
  }

  lemma HeaderWritten(b: seq<Byte>)
    requires |b| >= FIXED_HEADER_SIZE
    ensures Header(FromBigEndian(b[..8]), FromBigEndian(b[8..12]), FromBigEndian(b[12..16])) + b[16..] == b
    ensures FromBigEndian(b[..8]) <= UINT64_MAX
    ensures FromBigEndian(b[8..12]) <= UINT32_MAX && FromBigEndian(b[12..16]) <= UINT32_MAX
  {
    WrittenRead(b[..8]);
    WrittenRead(b[8..12]);
    WrittenRead(b[12..16]);
    FromBigEndianBound(b[..8]);
    FromBigEndianBound(b[8..12]);
    FromBigEndianBound(b[12..16]);
    Pow256Values();
    hide BigEndian, FromBigEndian, Pow256;
    assert b[..8] + b[8..12] + b[12..16] + b[16..] == b;
  }

  lemma DetailsParsed(c: Context, index: nat, d: Details)
    requires c.ValidWithCap(c.tauCount) && (d.NativeDetails? <==> c.mode == Native)
    requires d.ImprovedDetails? ==> (d.group.Some? <==> c.IsGroupEnd(index))
    requires d.ImprovedDetails? && d.group.Some? ==> |d.group.value.taus| == c.tauCount
    ensures |DetailBytes(d)| == DetailLength(c, index) && ParseDetails(c, index, DetailBytes(d)) == d
  {
    hide Quo, Rem;
    if d.ImprovedDetails? && d.group.Some? {
      var taus := d.group.value.taus;
      SplitJoin(taus);
      assert DetailBytes(d)[..32 * |taus|] == Join(taus);
    }
  }

  lemma DetailsWritten(c: Context, index: nat, s: seq<Byte>)
    requires c.ValidWithCap(c.tauCount) && |s| == DetailLength(c, index)
    ensures DetailBytes(ParseDetails(c, index, s)) == s
  {
    hide Quo, Rem;
    if c.mode == Improved && c.IsGroupEnd(index) {
      JoinSplit(s[..32 * c.tauCount], c.tauCount);
      assert s == s[..32 * c.tauCount] + s[32 * c.tauCount..];
    }
  }

  function BodyOf(p: Packet): seq<Byte>
    requires p.Data?
  {
    p.message + KeyBytes(p.key) + DetailBytes(p.details)
  }

  lemma BodyParsed(p: Packet, c: Context)
    requires c.ValidWithCap(c.tauCount) && p.WellFormed() && p.Data? && Rejection(p, c) == None
    ensures |BodyOf(p)| + FIXED_HEADER_SIZE == ExpectedLength(c, p.interval, p.index)
    ensures ParseData(c, p.chainId, p.interval, p.index, BodyOf(p)) == p
  {
    hide Quo, Rem;
    DetailsParsed(c, p.index, p.details);
    var body := BodyOf(p);
    assert body[..32] == p.message;
    if p.key.Some? {
      assert body[32..64] == p.key.value && body[64..] == DetailBytes(p.details);
    } else {
      assert body[32..] == DetailBytes(p.details);
    }
  }

  /** Decoding an encoded packet returns it. */
  lemma DecodeEncode(p: Packet, c: Context)
    requires c.ValidWithCap(c.tauCount) && p.WellFormed() && Rejection(p, c) == None
    ensures Decode(Wire(p), c) == Ok(p)
  {
    if p.Disclosure? {
      HeaderRead(p.chainId, p.interval, 0, p.disclosed);
    } else {
      var body := BodyOf(p);
      HeaderRead(p.chainId, p.interval, p.index, body);
      BodyParsed(p, c);
      assert Wire(p) == Header(p.chainId, p.interval, p.index) + body;
      hide Header, BigEndian, FromBigEndian, Quo, Rem, BodyOf, ParseData;
    }
  }

  lemma ParsedDataEncodable(c: Context, chainId: nat, interval: nat, index: nat, body: seq<Byte>)
    requires c.ValidWithCap(c.tauCount) && |body| + FIXED_HEADER_SIZE == ExpectedLength(c, interval, index)
    requires 0 < chainId <= UINT64_MAX && 0 < interval <= UINT32_MAX && 0 < index <= c.totalPacketCount
    requires interval == c.ExpectedInterval(index)
    ensures var p := ParseData(c, chainId, interval, index, body);
            && p.WellFormed() && Rejection(p, c) == None
            && p.message + KeyBytes(p.key) + DetailBytes(p.details) == body
  {
    hide Quo, Rem;
    if c.CarriesKey(interval, index) {
      DetailsWritten(c, index, body[64..]);
      assert body == body[..32] + body[32..64] + body[64..];
    } else {
      DetailsWritten(c, index, body[32..]);
      assert body == body[..32] + [] + body[32..];
    }
  }

  /** Every accepted datagram is the encoding of the packet it decodes to. */
  lemma EncodeDecode(b: seq<Byte>, c: Context)
    requires c.ValidWithCap(c.tauCount) && Decode(b, c).Ok?
    ensures var p := Decode(b, c).value; p.WellFormed() && Rejection(p, c) == None && Wire(p) == b
  {
    HeaderWritten(b);
    FieldsDecoded(FromBigEndian(b[..8]), FromBigEndian(b[8..12]), FromBigEndian(b[12..16]), b[16..], c);
    hide BigEndian, FromBigEndian, Header, DecodeFields, Rejection, Wire;
  }

  /** The same for header fields and body, before the header is written out. */
  lemma FieldsDecoded(chainId: nat, interval: nat, index: nat, body: seq<Byte>, c: Context)
    requires c.ValidWithCap(c.tauCount) && DecodeFields(chainId, interval, index, body, c).Ok?
    requires chainId <= UINT64_MAX && interval <= UINT32_MAX && index <= UINT32_MAX
    ensures var p := DecodeFields(chainId, interval, index, body, c).value;
            p.WellFormed() && Rejection(p, c) == None && Wire(p) == Header(chainId, interval, index) + body
  {
    hide Header, Quo, Rem;
    if index != 0 {
      ParsedDataEncodable(c, chainId, interval, index, body);
      var p := ParseData(c, chainId, interval, index, body);
      assert Wire(p) == Header(chainId, interval, index) + (p.message + KeyBytes(p.key) + DetailBytes(p.details));
    }
  }

  /** So each packet has one datagram and each accepted datagram one packet. */
  lemma CodecBijection(p: Packet, b: seq<Byte>, c: Context)
    requires c.Valid() && p.WellFormed()
    ensures Decode(b, c) == Ok(p) <==> Rejection(p, c) == None && b == Wire(p)
  {
    if Decode(b, c) == Ok(p) { EncodeDecode(b, c); }
    if Rejection(p, c) == None && b == Wire(p) { DecodeEncode(p, c); }
  }

  lemma Patched(head: seq<Byte>, message: Block, tail: seq<Byte>, o: nat, x: Byte)
    requires |head| == MESSAGE_OFFSET && o < 32
    ensures (head + message + tail)[MESSAGE_OFFSET + o := x] == head + message[o := x] + tail
  {
  }

  lemma WireShape(p: Packet)
    requires p.Data?
    ensures Wire(p) == Header(p.chainId, p.interval, p.index) + p.message + (KeyBytes(p.key) + DetailBytes(p.details))
  {
    hide Header, KeyBytes, DetailBytes;
  }

  /** Overwriting one message byte of an accepted data datagram gives an accepted datagram whose packet differs
      in that message byte and nowhere else. */
  lemma TamperedMessage(b: seq<Byte>, c: Context, o: nat, x: Byte)
    requires c.Valid() && o < 32 && Decode(b, c).Ok? && Decode(b, c).value.Data?
    ensures |b| >= MESSAGE_OFFSET + 32
    ensures var p := Decode(b, c).value;
            Decode(b[MESSAGE_OFFSET + o := x], c) == Ok(p.(message := p.message[o := x]))
  {
    EncodeDecode(b, c);
    hide Decode, Wire, Header, KeyBytes, DetailBytes, Quo, Rem;
    var p := Decode(b, c).value;
    var q := p.(message := p.message[o := x]);
    assert q.WellFormed() && Rejection(q, c) == None;
    hide Rejection;
    DecodeEncode(q, c);
    WireShape(p);
    WireShape(q);
    Patched(Header(p.chainId, p.interval, p.index), p.message, KeyBytes(p.key) + DetailBytes(p.details), o, x);
  }

  // ----- Where the fields are -----

  /** The position of the MAC or the tags: behind the header, the message and the key, if there is one. */
  function DetailOffset(p: Packet): nat
    requires p.Data?
  {
    if p.key.Some? then 80 else 48
  }

  lemma HeaderByte(chainId: nat, interval: nat, index: nat, i: nat)
    requires i < 16
    ensures Header(chainId, interval, index)[i] ==
            (if i < 8 then chainId / Pow256(7 - i)
             else if i < 12 then interval / Pow256(11 - i) else index / Pow256(15 - i)) % 256
  {
    if i < 8 {
      BigEndianAt(chainId, 8, i);
    } else if i < 12 {
      BigEndianAt(interval, 4, i - 8);
    } else {
      BigEndianAt(index, 4, i - 12);
    }
    hide BigEndian, Pow256;
  }

  /** A datagram begins with the chain, the interval and the index in network order, at 0, 8 and 12; a disclosure has
      index 0. */
  lemma HeaderLayout(p: Packet, i: nat)
    requires i < 16
    ensures |Wire(p)| >= 16
    ensures Wire(p)[i] ==
            (if i < 8 then p.chainId / Pow256(7 - i)
             else if i < 12 then p.interval / Pow256(11 - i)
             else (if p.Disclosure? then 0 else p.index) / Pow256(15 - i)) % 256
  {
    HeaderByte(p.chainId, p.interval, if p.Disclosure? then 0 else p.index, i);
    hide Header, Pow256;
    if p.Data? { WireShape(p); }
  }

  /** Then follow the disclosed key, or the message at 16, the key behind it if there is one, and in the last 32 bytes
      the MAC or the fast tag of the group. */
  lemma WireLayout(p: Packet)
    ensures |Wire(p)| >= 48 && Wire(p)[16..48] == if p.Disclosure? then p.disclosed else p.message
    ensures p.Disclosure? ==> |Wire(p)| == 48
    ensures p.Data? && p.key.Some? ==> |Wire(p)| >= 80 && Wire(p)[48..80] == p.key.value
    ensures p.Data? && p.details.NativeDetails? ==>
              |Wire(p)| == DetailOffset(p) + 32 && Wire(p)[DetailOffset(p)..] == p.details.mac
    ensures p.Data? && p.details.ImprovedDetails? && p.details.group.Some? ==>
              |Wire(p)| >= DetailOffset(p) + 32 && Wire(p)[|Wire(p)| - 32..] == p.details.group.value.fastTag
  {
    hide Header, Join;
    if p.Data? { WireShape(p); }
  }

  /** The tag of row k of a group lies k blocks behind the start of the details, and the fast tag behind all of them. */
  lemma TagLayout(p: Packet, k: nat)
    requires p.Data? && p.details.ImprovedDetails? && p.details.group.Some? && k < |p.details.group.value.taus|
    ensures |Wire(p)| == DetailOffset(p) + 32 * (|p.details.group.value.taus| + 1)
    ensures var at := DetailOffset(p) + 32 * k; Wire(p)[at..at + 32] == p.details.group.value.taus[k]
  {
    var taus := p.details.group.value.taus;
    JoinAt(taus, k);
    WireShape(p);
    hide Header, Join;
    assert Wire(p)[DetailOffset(p)..] == Join(taus) + p.details.group.value.fastTag;
    assert (Join(taus) + p.details.group.value.fastTag)[32 * k..32 * k + 32] == Join(taus)[32 * k..32 * k + 32];
  }

  // ----- Which error is reported -----

  /** The chain, interval and index that a datagram names. */
  datatype Fields = Fields(chainId: nat, interval: nat, index: nat)

  function FieldsOf(b: seq<Byte>): Fields
    requires |b| >= FIXED_HEADER_SIZE
  {
    Fields(FromBigEndian(b[..8]), FromBigEndian(b[8..12]), FromBigEndian(b[12..16]))
  }

  /** The interval of a packet by its index, and how long its datagram is. */
  predicate Belongs(f: Fields, c: Context)
    requires c.Valid()
  {
    0 < f.index <= c.totalPacketCount && f.interval == (f.index - 1) / c.packetsPerInterval + 1
  }

  function DataLength(f: Fields, c: Context): nat
    requires c.Valid() && f.index > 0
  {
    48 + (if f.interval > c.disclosureDelay && (f.index - 1) % c.packetsPerInterval == 0 then 32 else 0)
       + (if c.mode == Native then 32
          else if f.index % c.groupSize == 0 || f.index == c.totalPacketCount then 32 * c.tauCount + 32 else 0)
  }

  /** Exactly when decoding reports which error. */
  lemma DecodeErrorIff(b: seq<Byte>, c: Context, error: DecodeError)
    requires c.Valid()
    ensures Decode(b, c) == Err(error) <==>
      if |b| < 16 then error == DatagramTooShort
      else
        var f := FieldsOf(b);
        match error
        case DatagramTooShort => false
        case InvalidAuthenticationContext => f.chainId == 0
        case InvalidIntervalIndex =>
          f.chainId != 0 &&
          (f.interval == 0
           || (f.index == 0 && |b| == 48 && !(0 < f.interval - c.disclosureDelay <= c.FinalInterval()))
           || (0 < f.index <= c.totalPacketCount && !Belongs(f, c)))
        case InvalidPacketIndex => f.chainId != 0 && f.interval != 0 && f.index > c.totalPacketCount
        case DatagramLengthMismatch =>
          f.chainId != 0 && f.interval != 0 &&
          if f.index == 0 then |b| != 48 else Belongs(f, c) && |b| != DataLength(f, c)
  {
    hide FromBigEndian, ParseData;
  }

  /** Exactly when encoding refuses a packet and why: what is reported is the first of these, in this order, that
      applies. */
  lemma EncodeErrorIff(p: Packet, c: Context)
    requires c.Valid() && p.WellFormed()
    ensures Rejection(p, c) == Some(DisclosureOutsideRound) <==>
            p.Disclosure? && !(0 < p.interval - c.disclosureDelay <= c.FinalInterval())
    ensures Rejection(p, c) == Some(IndexBeyondRound) <==> p.Data? && p.index > c.totalPacketCount
    ensures p.Data? && p.index <= c.totalPacketCount ==>
              var f := Fields(p.chainId, p.interval, p.index);
              var keyDue := p.interval > c.disclosureDelay && (p.index - 1) % c.packetsPerInterval == 0;
              && (Rejection(p, c) == Some(IntervalMismatch) <==> !Belongs(f, c))
              && (Belongs(f, c) ==> (Rejection(p, c) == Some(KeyPresenceInvalid) <==> p.key.Some? != keyDue))
              && (Belongs(f, c) && p.key.Some? == keyDue ==>
                    && (Rejection(p, c) == Some(WrongMode) <==> (c.mode == Native) != p.details.NativeDetails?)
                    && (c.mode == Improved && p.details.ImprovedDetails? ==>
                          var closes := p.index % c.groupSize == 0 || p.index == c.totalPacketCount;
                          && (Rejection(p, c) == Some(GroupDetailsMisplaced) <==> p.details.group.Some? != closes)
                          && (closes && p.details.group.Some? ==>
                                (Rejection(p, c) == Some(TauCountMismatch) <==>
                                   |p.details.group.value.taus| != c.tauCount))))
  {
  }

  // ----- Datagram size -----

  lemma WireLength(p: Packet, c: Context)
    requires c.ValidWithCap(c.tauCount) && p.WellFormed() && Rejection(p, c) == None
    ensures |Wire(p)| == if p.Disclosure? then DISCLOSURE_PACKET_SIZE else ExpectedLength(c, p.interval, p.index)
  {
    hide Quo, Rem;
  }

  /** Every packet of every round fits one UDP datagram if and only if the tag count is at most 2043. */
  lemma FitsDatagramIff(cap: nat)
    ensures (forall c: Context, p: Packet ::
               c.ValidWithCap(cap) && p.WellFormed() && Rejection(p, c) == None ==>
                 |Wire(p)| <= MAX_UDP_DATAGRAM_SIZE) <==>
            cap <= MAX_SAFE_TAU_COUNT
  {
    if cap <= MAX_SAFE_TAU_COUNT {
      forall c: Context, p: Packet | c.ValidWithCap(cap) && p.WellFormed() && Rejection(p, c) == None
        ensures |Wire(p)| <= MAX_UDP_DATAGRAM_SIZE
      {
        WireLength(p, c);
      }
    } else {
      var c := Context(Improved, 2, 1, 3, 2, MAX_SAFE_TAU_COUNT + 1);
      var taus := seq(MAX_SAFE_TAU_COUNT + 1, _ => BLANK);
      var p := Data(1, 2, 3, BLANK, Some(BLANK), ImprovedDetails(Some(Group(taus, BLANK))));
      DivisionUnique(2, 2, 1, 0);
      DivisionUnique(3, 2, 1, 1);
      assert c.ValidWithCap(cap) && Rejection(p, c) == None;
      WireLength(p, c);
      assert |Wire(p)| == 65520;
    }
  }

  const BLANK: Block := seq(32, _ => 0)
}
