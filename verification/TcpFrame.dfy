/** Length-prefixed TCP frames: the whole-frame codec and the stream decoder that
    reassembles frames from arbitrarily segmented input. */
module TcpFrame {
  import opened Bytes

  const LENGTH_PREFIX_SIZE := 4
  const TYPE_SIZE := 1
  const CHUNK_HEADER_SIZE := 16

  /** Whether a byte string is exactly one JSON object; the parser itself is not modelled. */
  type JsonCheck = seq<Byte> -> bool

  datatype Frame =
    | JsonControl(text: seq<Byte>)
    | FileChunk(chainId: nat, index: nat, data: seq<Byte>)

  datatype FrameError =
    | InvalidFrameLength
    | FrameTooLarge
    | UnsupportedFrameType
    | InvalidJsonPayload
    | InvalidFileChunk

  /** What the frame constructors accept. */
  predicate ValidFrame(f: Frame, isObject: JsonCheck) {
    match f
    case JsonControl(text) => isObject(text)
    case FileChunk(chainId, index, data) =>
      && 0 < chainId <= UINT64_MAX
      && 0 < index <= UINT32_MAX
      && 0 < |data| <= UINT32_MAX
  }

  function TypeByte(f: Frame): Byte {
    if f.JsonControl? then 1 else 2
  }

  function Payload(f: Frame): seq<Byte> {
    match f
    case JsonControl(text) => text
    case FileChunk(chainId, index, data) =>
      BigEndian(chainId, 8) + BigEndian(index, 4) + BigEndian(|data|, 4) + data
  }

  /** The length the frame declares: its type byte and payload. */
  function FrameLength(f: Frame): nat {
    TYPE_SIZE + |Payload(f)|
  }

  /** The frame's bytes on the wire. */
  function Wire(f: Frame): (s: seq<Byte>)
    ensures |s| == LENGTH_PREFIX_SIZE + FrameLength(f)
  {
    BigEndian(FrameLength(f), 4) + [TypeByte(f)] + Payload(f)
  }

  function WireAll(fs: seq<Frame>): seq<Byte> {
    if fs == [] then [] else Wire(fs[0]) + WireAll(fs[1..])
  }

  function DecodeChunk(payload: seq<Byte>): Result<Frame, FrameError> {
    if |payload| < CHUNK_HEADER_SIZE then Err(InvalidFileChunk) else
    var chainId := FromBigEndian(payload[..8]);
    var index := FromBigEndian(payload[8..12]);
    var data := payload[16..];
    if FromBigEndian(payload[12..16]) != |data| || chainId == 0 || index == 0 || data == [] then
      Err(InvalidFileChunk)
    else
      Ok(FileChunk(chainId, index, data))
  }

  /** Whole-frame decoding, as one expression over the bytes. */
  function Decode(b: seq<Byte>, isObject: JsonCheck): Result<Frame, FrameError> {
    if |b| < LENGTH_PREFIX_SIZE + TYPE_SIZE then Err(InvalidFrameLength)
    else if FromBigEndian(b[..4]) != |b| - LENGTH_PREFIX_SIZE then Err(InvalidFrameLength)
    else if b[4] == 1 then
      if isObject(b[5..]) then Ok(JsonControl(b[5..])) else Err(InvalidJsonPayload)
    else if b[4] != 2 then Err(UnsupportedFrameType)
    else DecodeChunk(b[5..])
  }

  method EncodePayload(f: Frame, isObject: JsonCheck) returns (payload: seq<Byte>)
    requires ValidFrame(f, isObject)
    ensures payload == Payload(f)
  {
    Pow256Values();
    hide BigEndian, Pow256;
    var buffer := new ByteBuffer();
    match f {
      case JsonControl(text) =>
        buffer.AppendBytes(text);
      case FileChunk(chainId, index, data) =>
        buffer.AppendUint(chainId, 8);
        buffer.AppendUint32(index);
        buffer.AppendUint32(|data|);
        buffer.AppendBytes(data);
    }
    payload := buffer.data;
  }

  method EncodeFrame(f: Frame, isObject: JsonCheck) returns (r: Option<seq<Byte>>)
    requires ValidFrame(f, isObject)
    ensures r == if FrameLength(f) <= UINT32_MAX then Some(Wire(f)) else None
  {
    hide BigEndian, Payload;
    var payload := EncodePayload(f, isObject);
    if |payload| > UINT32_MAX - TYPE_SIZE { return None; }
    var frame := new ByteBuffer();
    frame.AppendUint32(TYPE_SIZE + |payload|);
    frame.AppendBytes([TypeByte(f)]);
    frame.AppendBytes(payload);
    assert frame.data == Wire(f);
    r := Some(frame.data);
  }

  method DecodeFrame(b: seq<Byte>, isObject: JsonCheck) returns (r: Result<Frame, FrameError>)
    ensures r == Decode(b, isObject)
  {
    if |b| < LENGTH_PREFIX_SIZE + TYPE_SIZE { return Err(InvalidFrameLength); }
    hide FromBigEndian, DecodeChunk;
    var frame := new BinaryReader(b);
    var length := frame.ReadUint(4);
    assert b[0..4] == b[..4];
    if length.value < TYPE_SIZE || length.value != |b| - LENGTH_PREFIX_SIZE {
      return Err(InvalidFrameLength);
    }
    var kind := frame.ReadBytes(1);
    var payload := frame.ReadBytes(frame.Remaining());
    assert payload.value == b[5..] && kind.value[0] == b[4];
    if kind.value[0] == 1 {
      return if isObject(payload.value) then Ok(JsonControl(payload.value)) else Err(InvalidJsonPayload);
    }
    if kind.value[0] != 2 { return Err(UnsupportedFrameType); }
    r := DecodeChunkPayload(payload.value);
  }

  method DecodeChunkPayload(payload: seq<Byte>) returns (r: Result<Frame, FrameError>)
    ensures r == DecodeChunk(payload)
  {
    if |payload| < CHUNK_HEADER_SIZE { return Err(InvalidFileChunk); }
    var chunk := new BinaryReader(payload);
    var chainId := chunk.ReadUint(8);
    var index := chunk.ReadUint(4);
    var size := chunk.ReadUint(4);
    if size.value != chunk.Remaining() { return Err(InvalidFileChunk); }
    var data := chunk.ReadBytes(size.value);
    assert payload[0..8] == payload[..8] && data.value == payload[16..];
    if chainId.value == 0 || index.value == 0 || data.value == [] { return Err(InvalidFileChunk); }
    r := Ok(FileChunk(chainId.value, index.value, data.value));
  }

  /** Decoding an encoded frame gives the frame back. */
  lemma DecodeWire(f: Frame, isObject: JsonCheck)
    requires ValidFrame(f, isObject) && FrameLength(f) <= UINT32_MAX
    ensures Decode(Wire(f), isObject) == Ok(f)
  {
    Pow256Values();
    var b := Wire(f);
    ReadWritten(FrameLength(f), 4);
    assert b[..4] == BigEndian(FrameLength(f), 4);
    assert b[5..] == Payload(f);
    if f.FileChunk? {
      var p := Payload(f);
      assert p[..8] == BigEndian(f.chainId, 8);
      assert p[8..12] == BigEndian(f.index, 4);
      assert p[12..16] == BigEndian(|f.data|, 4);
      assert p[16..] == f.data;
      ReadWritten(f.chainId, 8);
      ReadWritten(f.index, 4);
      ReadWritten(|f.data|, 4);
    }
  }

  /** Whatever is accepted is the one encoding of the frame it decodes to. */
  lemma WireDecoded(b: seq<Byte>, isObject: JsonCheck)
    requires Decode(b, isObject).Ok?
    ensures ValidFrame(Decode(b, isObject).value, isObject) && Wire(Decode(b, isObject).value) == b
  {
    Pow256Values();
    WrittenRead(b[..4]);
    var p := b[5..];
    assert b == b[..4] + [b[4]] + p;
    if b[4] == 2 { ChunkDecoded(p); }
    hide BigEndian, FromBigEndian, DecodeChunk, Pow256;
  }

  lemma ChunkDecoded(p: seq<Byte>)
    requires DecodeChunk(p).Ok?
    ensures var f := DecodeChunk(p).value;
            f.FileChunk? && Payload(f) == p && 0 < f.chainId <= UINT64_MAX && 0 < f.index <= UINT32_MAX
              && 0 < |f.data| <= UINT32_MAX
  {
    Pow256Values();
    WrittenRead(p[..8]);
    WrittenRead(p[8..12]);
    WrittenRead(p[12..16]);
    FromBigEndianBound(p[..8]);
    FromBigEndianBound(p[8..12]);
    FromBigEndianBound(p[12..16]);
    hide BigEndian, FromBigEndian, Pow256;
    assert p == p[..8] + p[8..12] + p[12..16] + p[16..];
  }

  // ----- Layout and errors -----

  /** Every frame begins with the length of what follows, in network order, and a type byte: 1 for control text, 2 for a
      file chunk. The text follows as it is. */
  lemma FrameLayout(f: Frame, i: nat)
    requires i < 4
    ensures |Wire(f)| >= 5 && Wire(f)[i] == (|Wire(f)| - 4) / Pow256(3 - i) % 256
    ensures Wire(f)[4] == if f.JsonControl? then 1 else 2
    ensures f.JsonControl? ==> Wire(f)[5..] == f.text
  {
    BigEndianAt(FrameLength(f), 4, i);
    hide BigEndian, Pow256;
  }

  /** A chunk carries its chain, index and data length in network order, at 5, 13 and 17, and then its data. */
  lemma ChunkLayout(f: Frame, i: nat)
    requires f.FileChunk? && i < 16
    ensures |Wire(f)| == 21 + |f.data| && Wire(f)[21..] == f.data
    ensures Wire(f)[5 + i] ==
            (if i < 8 then f.chainId / Pow256(7 - i)
             else if i < 12 then f.index / Pow256(11 - i) else |f.data| / Pow256(15 - i)) % 256
  {
    if i < 8 {
      BigEndianAt(f.chainId, 8, i);
    } else if i < 12 {
      BigEndianAt(f.index, 4, i - 8);
    } else {
      BigEndianAt(|f.data|, 4, i - 12);
    }
    hide BigEndian, Pow256;
  }

  /** Exactly when decoding reports which error. A chunk is accepted if and only if it is the encoding of one. */
  lemma DecodeErrorIff(b: seq<Byte>, isObject: JsonCheck, error: FrameError)
    requires |b| <= UINT32_MAX
    ensures Decode(b, isObject) == Err(error) <==>
            if |b| < 5 || FromBigEndian(b[..4]) + 4 != |b| then error == InvalidFrameLength
            else if b[4] == 1 then error == InvalidJsonPayload && !isObject(b[5..])
            else if b[4] == 2 then error == InvalidFileChunk && !IsChunk(b, isObject)
            else error == UnsupportedFrameType
  {
    if IsChunk(b, isObject) {
      var f: Frame :| f.FileChunk? && ValidFrame(f, isObject) && b == Wire(f);
      DecodeWire(f, isObject);
    } else if |b| >= 5 && b[4] == 2 && Decode(b, isObject).Ok? {
      WireDecoded(b, isObject);
    }
    hide FromBigEndian, BigEndian, Payload;
  }

  ghost predicate IsChunk(b: seq<Byte>, isObject: JsonCheck) {
    exists f: Frame :: f.FileChunk? && ValidFrame(f, isObject) && b == Wire(f)
  }

  // ----- Stream decoding -----

  /** What a stream prefix yields: complete frames, the first error, and the bytes kept back. */
  datatype Parsed = Parsed(frames: seq<Frame>, error: Option<FrameError>, pending: seq<Byte>)

  function Prepend(fs: seq<Frame>, p: Parsed): Parsed {
    p.(frames := fs + p.frames)
  }

  /** What the front of a byte stream holds: too few bytes, a violation, or one frame of a given size. */
  datatype Head = Incomplete | Violation(error: FrameError) | Complete(frame: Frame, size: nat)

  function ReadHead(s: seq<Byte>, max: nat, isObject: JsonCheck): (h: Head)
    ensures h.Complete? ==> LENGTH_PREFIX_SIZE < h.size <= |s|
    ensures h.Incomplete? ==> |s| < LENGTH_PREFIX_SIZE + max || |s| < LENGTH_PREFIX_SIZE
  {
    if |s| < LENGTH_PREFIX_SIZE then Incomplete else
    var length := FromBigEndian(s[..4]);
    if length < TYPE_SIZE then Violation(InvalidFrameLength)
    else if length > max then Violation(FrameTooLarge)
    else if |s| < LENGTH_PREFIX_SIZE + length then Incomplete
    else match Decode(s[..4 + length], isObject)
      case Err(e) => Violation(e)
      case Ok(f) => Complete(f, 4 + length)
  }

  /** The front of a stream is incomplete until the declared length has arrived, and a length of 0 or above the limit is
      reported before that. */
  lemma HeadExactly(s: seq<Byte>, max: nat, isObject: JsonCheck)
    requires |s| >= 4
    ensures var length, h := FromBigEndian(s[..4]), ReadHead(s, max, isObject);
            && (h.Incomplete? <==> 1 <= length <= max && |s| - 4 < length)
            && (h == Violation(FrameTooLarge) <==> length > max && length > 0)
            && (length == 0 ==> h == Violation(InvalidFrameLength))
            && (h.Complete? ==> h.size == 4 + length)
  {
    var length := FromBigEndian(s[..4]);
    if 1 <= length <= max && |s| >= 4 + length {
      assert s[..4 + length][..4] == s[..4];
    }
    hide FromBigEndian, DecodeChunk;
  }

  /** The meaning of a byte stream under a frame-length limit, independent of how it arrives. */
  function Drain(s: seq<Byte>, max: nat, isObject: JsonCheck): (p: Parsed)
    decreases |s|
  {
    match ReadHead(s, max, isObject)
    case Incomplete => Parsed([], None, s)
    case Violation(e) => Parsed([], Some(e), [])
    case Complete(f, size) => Prepend([f], Drain(s[size..], max, isObject))
  }

  lemma DrainUnfold(s: seq<Byte>, max: nat, isObject: JsonCheck)
    ensures var h, p := ReadHead(s, max, isObject), Drain(s, max, isObject);
            && (h.Incomplete? ==> p == Parsed([], None, s))
            && (h.Violation? ==> p == Parsed([], Some(h.error), []))
            && (h.Complete? ==> p == Prepend([h.frame], Drain(s[h.size..], max, isObject)))
  {
  }

  /** One step of decoding, after the frames fs have already been taken off the front of `all`. */
  lemma DrainStep(all: seq<Byte>, fs: seq<Frame>, s: seq<Byte>, max: nat, isObject: JsonCheck)
    requires Drain(all, max, isObject) == Prepend(fs, Drain(s, max, isObject))
    ensures var h, p := ReadHead(s, max, isObject), Drain(all, max, isObject);
            && (h.Incomplete? ==> p == Parsed(fs, None, s))
            && (h.Violation? ==> p == Parsed(fs, Some(h.error), []))
            && (h.Complete? ==> p == Prepend(fs + [h.frame], Drain(s[h.size..], max, isObject)))
  {
    hide ReadHead;
    var h := ReadHead(s, max, isObject);
    if h.Complete? {
      var rest := Drain(s[h.size..], max, isObject);
      assert fs + ([h.frame] + rest.frames) == (fs + [h.frame]) + rest.frames;
    }
  }

  method ReadLength(prefix: seq<Byte>) returns (length: nat)
    requires |prefix| == LENGTH_PREFIX_SIZE
    ensures length == FromBigEndian(prefix)
  {
    var reader := new BinaryReader(prefix);
    var n := reader.ReadUint(4);
    assert prefix[0..4] == prefix;
    length := n.value;
  }

  class StreamDecoder {
    const max: nat
    const isObject: JsonCheck
    var pending: seq<Byte>

    constructor (max: nat, isObject: JsonCheck)
      requires max >= TYPE_SIZE
      ensures this.max == max && this.isObject == isObject && pending == []
    {
      this.max := max;
      this.isObject := isObject;
      pending := [];
    }

    /** Looks at the front of the pending bytes without taking anything. */
    method ScanFront() returns (h: Head)
      ensures h == ReadHead(pending, max, isObject)
    {
      if |pending| < LENGTH_PREFIX_SIZE { return Incomplete; }
      hide Decode, FromBigEndian;
      var length := ReadLength(pending[..4]);
      if length < TYPE_SIZE { return Violation(InvalidFrameLength); }
      if length > max { return Violation(FrameTooLarge); }
      var total := LENGTH_PREFIX_SIZE + length;
      if |pending| < total { return Incomplete; }
      var decoded := DecodeFrame(pending[..total], isObject);
      h := if decoded.Ok? then Complete(decoded.value, total) else Violation(decoded.error);
    }

    method Consume(bytes: seq<Byte>) returns (frames: seq<Frame>, error: Option<FrameError>)
      modifies this
      ensures Parsed(frames, error, pending) == Drain(old(pending) + bytes, max, isObject)
    {
      pending := pending + bytes;
      ghost var all := pending;
      frames := [];
      assert Drain(all, max, isObject) == Prepend([], Drain(all, max, isObject)) by { hide Drain; }
      hide ReadHead, Drain, Prepend;
      while true
        invariant Drain(all, max, isObject) == Prepend(frames, Drain(pending, max, isObject))
        decreases |pending|
      {
        DrainStep(all, frames, pending, max, isObject);
        var front := ScanFront();
        if front.Incomplete? { break; }
        if front.Violation? {
          Reset();
          return frames, Some(front.error);
        }
        pending := pending[front.size..];
        frames := frames + [front.frame];
      }
      error := None;
      assert Parsed(frames, None, pending) == Drain(all, max, isObject)
             by { DrainStep(all, frames, pending, max, isObject); }
    }

    method Reset()
      modifies this
      ensures pending == []
    {
      pending := [];
    }
  }

  /** Once the front of a stream is decided, later bytes do not change it. */
  lemma HeadStable(a: seq<Byte>, b: seq<Byte>, max: nat, isObject: JsonCheck)
    requires !ReadHead(a, max, isObject).Incomplete?
    ensures ReadHead(a + b, max, isObject) == ReadHead(a, max, isObject)
  {
    var length := FromBigEndian(a[..4]);
    assert (a + b)[..4] == a[..4];
    if TYPE_SIZE <= length <= max {
      assert (a + b)[..4 + length] == a[..4 + length];
    }
  }

  /** A complete front is a valid frame whose encoding is exactly those bytes. */
  lemma HeadIsWire(s: seq<Byte>, max: nat, isObject: JsonCheck)
    requires ReadHead(s, max, isObject).Complete?
    ensures var h := ReadHead(s, max, isObject);
            && ValidFrame(h.frame, isObject) && FrameLength(h.frame) <= max
            && s[..h.size] == Wire(h.frame)
  {
    WireDecoded(s[..ReadHead(s, max, isObject).size], isObject);
  }

  lemma HeadOfWire(f: Frame, tail: seq<Byte>, max: nat, isObject: JsonCheck)
    requires ValidFrame(f, isObject) && FrameLength(f) <= max <= UINT32_MAX
    ensures ReadHead(Wire(f) + tail, max, isObject) == Complete(f, |Wire(f)|)
  {
    var w := Wire(f);
    var s := w + tail;
    assert FromBigEndian(s[..4]) == FrameLength(f) by {
      Pow256Values();
      ReadWritten(FrameLength(f), 4);
      assert s[..4] == BigEndian(FrameLength(f), 4);
    }
    assert s[..|w|] == w;
    DecodeWire(f, isObject);
  }

  /** Bytes that arrive after an error-free prefix are decoded as if the prefix's leftover came first. */
  lemma {:induction false} DrainResumes(a: seq<Byte>, b: seq<Byte>, max: nat, isObject: JsonCheck)
    requires Drain(a, max, isObject).error == None
    ensures Drain(a + b, max, isObject)
         == Prepend(Drain(a, max, isObject).frames, Drain(Drain(a, max, isObject).pending + b, max, isObject))
    decreases |a|
  {
    hide ReadHead;
    var h := ReadHead(a, max, isObject);
    if h.Complete? {
      HeadStable(a, b, max, isObject);
      assert (a + b)[h.size..] == a[h.size..] + b;
      DrainResumes(a[h.size..], b, max, isObject);
    }
  }

  /** Once a prefix is in error, later bytes change nothing that was reported. */
  lemma {:induction false} DrainErrorFinal(a: seq<Byte>, b: seq<Byte>, max: nat, isObject: JsonCheck)
    requires Drain(a, max, isObject).error.Some?
    ensures Drain(a + b, max, isObject) == Drain(a, max, isObject)
    decreases |a|
  {
    hide ReadHead;
    HeadStable(a, b, max, isObject);
    var h := ReadHead(a, max, isObject);
    if h.Complete? {
      assert (a + b)[h.size..] == a[h.size..] + b;
      DrainErrorFinal(a[h.size..], b, max, isObject);
    }
  }

  /** Bytes kept back hold no complete frame and no error, and stay below one maximal frame. */
  lemma {:induction false} PendingIncomplete(s: seq<Byte>, max: nat, isObject: JsonCheck)
    requires max >= TYPE_SIZE && Drain(s, max, isObject).error == None
    ensures var p := Drain(s, max, isObject).pending;
            Drain(p, max, isObject) == Parsed([], None, p) && |p| < LENGTH_PREFIX_SIZE + max
    decreases |s|
  {
    hide ReadHead;
    var h := ReadHead(s, max, isObject);
    if h.Complete? {
      PendingIncomplete(s[h.size..], max, isObject);
    }
  }

  function Concat(chunks: seq<seq<Byte>>): seq<Byte> {
    if chunks == [] then [] else chunks[0] + Concat(chunks[1..])
  }

  /** Feeds chunks one Consume call at a time, stopping at the first error. */
  function Feed(pending: seq<Byte>, chunks: seq<seq<Byte>>, max: nat, isObject: JsonCheck): Parsed
    decreases |chunks|
  {
    if chunks == [] then Parsed([], None, pending) else
    var p := Drain(pending + chunks[0], max, isObject);
    if p.error.Some? then p else Prepend(p.frames, Feed(p.pending, chunks[1..], max, isObject))
  }

  /** Segmentation independence: every split of a stream is decoded like the whole stream. */
  lemma {:induction false} FeedIsDrain(pending: seq<Byte>, chunks: seq<seq<Byte>>, max: nat, isObject: JsonCheck)
    requires max >= TYPE_SIZE && Drain(pending, max, isObject) == Parsed([], None, pending)
    ensures Feed(pending, chunks, max, isObject) == Drain(pending + Concat(chunks), max, isObject)
    decreases |chunks|
  {
    if chunks == [] {
      assert pending + Concat(chunks) == pending;
    } else {
      var first, rest := pending + chunks[0], Concat(chunks[1..]);
      assert pending + Concat(chunks) == first + rest;
      var p := Drain(first, max, isObject);
      if p.error.Some? {
        DrainErrorFinal(first, rest, max, isObject);
      } else {
        PendingIncomplete(first, max, isObject);
        DrainResumes(first, rest, max, isObject);
        FeedIsDrain(p.pending, chunks[1..], max, isObject);
      }
    }
  }

  lemma SegmentationIndependence(
      left: seq<seq<Byte>>, right: seq<seq<Byte>>, max: nat, isObject: JsonCheck)
    requires max >= TYPE_SIZE && Concat(left) == Concat(right)
    ensures Feed([], left, max, isObject) == Feed([], right, max, isObject)
  {
    FeedIsDrain([], left, max, isObject);
    FeedIsDrain([], right, max, isObject);
  }

  ghost predicate AllValid(fs: seq<Frame>, max: nat, isObject: JsonCheck) {
    forall i :: 0 <= i < |fs| ==> ValidFrame(fs[i], isObject) && FrameLength(fs[i]) <= max
  }

  /** Every byte is accounted for: the input is the re-encoded frames, then the bytes kept back. */
  lemma {:induction false} DrainConserves(s: seq<Byte>, max: nat, isObject: JsonCheck)
    ensures var p := Drain(s, max, isObject);
            && AllValid(p.frames, max, isObject)
            && WireAll(p.frames) <= s
            && (p.error == None ==> s == WireAll(p.frames) + p.pending)
    decreases |s|
  {
    hide ReadHead, Wire, ValidFrame, FrameLength, Drain;
    var h := ReadHead(s, max, isObject);
    DrainUnfold(s, max, isObject);
    if h.Complete? {
      HeadIsWire(s, max, isObject);
      DrainConserves(s[h.size..], max, isObject);
      var rest := Drain(s[h.size..], max, isObject);
      assert ([h.frame] + rest.frames)[1..] == rest.frames;
      assert s == Wire(h.frame) + s[h.size..];
      PrefixUnder(Wire(h.frame), WireAll(rest.frames), s[h.size..]);
    }
  }

  lemma PrefixUnder(a: seq<Byte>, b: seq<Byte>, c: seq<Byte>)
    requires b <= c
    ensures a + b <= a + c && (forall d: seq<Byte> :: c == b + d ==> a + c == a + b + d)
  {
    forall d: seq<Byte> | c == b + d ensures a + c == a + b + d {
      assert a + (b + d) == a + b + d;
    }
  }

  lemma PrependFirst(fs: seq<Frame>, p: Parsed)
    requires fs != []
    ensures Prepend([fs[0]], Prepend(fs[1..], p)) == Prepend(fs, p)
  {
    assert [fs[0]] + (fs[1..] + p.frames) == ([fs[0]] + fs[1..]) + p.frames;
    assert [fs[0]] + fs[1..] == fs;
  }

  /** Encoded frames are recovered exactly, whatever follows them. */
  lemma {:induction false} DrainWires(fs: seq<Frame>, tail: seq<Byte>, max: nat, isObject: JsonCheck)
    requires max <= UINT32_MAX && AllValid(fs, max, isObject)
    ensures Drain(WireAll(fs) + tail, max, isObject) == Prepend(fs, Drain(tail, max, isObject))
    decreases |fs|
  {
    hide ReadHead, Wire, ValidFrame, FrameLength, Drain, WireAll, Prepend;
    if fs == [] {
      NoWires(tail, Drain(tail, max, isObject));
    } else {
      var w, rest := Wire(fs[0]), WireAll(fs[1..]) + tail;
      FirstWire(fs, tail);
      HeadOfWire(fs[0], rest, max, isObject);
      DrainUnfold(w + rest, max, isObject);
      DrainWires(fs[1..], tail, max, isObject);
      assert (w + rest)[|w|..] == rest;
      PrependFirst(fs, Drain(tail, max, isObject));
    }
  }

  lemma NoWires(tail: seq<Byte>, p: Parsed)
    ensures WireAll([]) + tail == tail && Prepend([], p) == p
  {
  }

  lemma FirstWire(fs: seq<Frame>, tail: seq<Byte>)
    requires fs != []
    ensures WireAll(fs) + tail == Wire(fs[0]) + (WireAll(fs[1..]) + tail)
  {
    hide Wire;
  }
}
