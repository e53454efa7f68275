/** The manager's chunked file upload over one node connection, under socket back-pressure. */
module FileUpload {
  import opened Bytes
  import opened TcpFrame

  const CHUNK_SIZE := 64 * 1024
  const MAX_BACKLOG := 256 * 1024
  const END_FRAME_RESERVE := 4096
  const MAX_FILE_SIZE := 32 * 200000

  /** With at most this much waiting, a pump writes the next chunk or the End frame. */
  const LOW_BACKLOG := MAX_BACKLOG - (CHUNK_SIZE + 21)

  /** The JSON text of the upload's control messages; its layout is not modelled. */
  datatype ControlText = ControlText(
    begin: (string, nat, nat) -> seq<Byte>,
    end: (string, nat, nat, nat) -> seq<Byte>)

  type ChunkIndex = n: nat | n >= 1 witness 1

  datatype Upload = Upload(requestId: string, chainId: nat, file: seq<Byte>, offset: nat, next: ChunkIndex)

  /** The frames the socket accepted, in order, and how many of their bytes it has yet to send. */
  datatype Socket = Socket(connected: bool, sent: seq<Frame>, backlog: nat)

  datatype Endpoint = Endpoint(upload: Option<Upload>, socket: Socket)

  function Min(a: nat, b: nat): nat { if a <= b then a else b }

  function ChunkCount(size: nat): nat { (size + CHUNK_SIZE - 1) / CHUNK_SIZE }

  /** Chunk number i of a file, counted from one. */
  function ChunkFrame(chainId: nat, file: seq<Byte>, i: nat): (f: Frame)
    requires 1 <= i && (i - 1) * CHUNK_SIZE < |file|
  {
    FileChunk(chainId, i, file[(i - 1) * CHUNK_SIZE..Min(i * CHUNK_SIZE, |file|)])
  }

  function ChunkFrames(chainId: nat, file: seq<Byte>, n: nat): (fs: seq<Frame>)
    requires n <= ChunkCount(|file|)
    ensures |fs| == n
  {
    if n == 0 then [] else ChunkFrames(chainId, file, n - 1) + [ChunkFrame(chainId, file, n)]
  }

  function EndFrame(u: Upload, text: ControlText): Frame {
    JsonControl(text.end(u.requestId, u.chainId, ChunkCount(|u.file|), |u.file|))
  }

  predicate ValidUpload(u: Upload) {
    && 0 < u.chainId <= UINT64_MAX
    && 0 < |u.file| <= MAX_FILE_SIZE
    && u.offset == Min((u.next - 1) * CHUNK_SIZE, |u.file|)
    && u.next - 1 <= ChunkCount(|u.file|)
  }

  function Write(s: Socket, f: Frame): Socket {
    s.(sent := s.sent + [f], backlog := s.backlog + |Wire(f)|)
  }

  // ----- Specification of the pump -----

  /** How the chunk loop ends: blocked by back-pressure, stopped by a failed write, or run to its guard. */
  datatype ChunkLoop =
    | Blocked(upload: Upload, socket: Socket)
    | Broken(socket: Socket)
    | Exited(upload: Upload, socket: Socket, budget: nat)

  /** The next chunk the upload would write. */
  function NextChunk(u: Upload): Frame
    requires u.offset < |u.file|
  {
    FileChunk(u.chainId, u.next, u.file[u.offset..u.offset + Min(CHUNK_SIZE, |u.file| - u.offset)])
  }

  function Advance(u: Upload): Upload
    requires u.offset < |u.file|
  {
    u.(offset := u.offset + Min(CHUNK_SIZE, |u.file| - u.offset), next := u.next + 1)
  }

  /** Writes chunks while the socket has room; `budget` counts the writes it will accept. */
  function PumpChunks(u: Upload, s: Socket, budget: nat): ChunkLoop
    decreases |u.file| - u.offset
  {
    if u.offset >= |u.file| || s.backlog >= MAX_BACKLOG then Exited(u, s, budget) else
    var f := NextChunk(u);
    if s.backlog > 0 && s.backlog + |Wire(f)| > MAX_BACKLOG then Blocked(u, s)
    else if budget == 0 then Broken(s)
    else PumpChunks(Advance(u), Write(s, f), budget - 1)
  }

  function Pump(e: Endpoint, budget: nat, text: ControlText): (r: (Endpoint, bool)) {
    if e.upload == None || !e.socket.connected then (e, false) else
    match PumpChunks(e.upload.value, e.socket, budget)
    case Blocked(u, s) => (Endpoint(Some(u), s), true)
    case Broken(s) => (Endpoint(None, s), false)
    case Exited(u, s, left) =>
      if u.offset != |u.file| || s.backlog > MAX_BACKLOG - END_FRAME_RESERVE then (Endpoint(Some(u), s), true)
      else if left == 0 then (Endpoint(None, s), false)
      else (Endpoint(None, Write(s, JsonControl(text.end(u.requestId, u.chainId, u.next - 1, |u.file|)))), true)
  }

  class ManagedEndpoint {
    const text: ControlText
    var connected: bool
    var sent: seq<Frame>
    var backlog: nat
    var upload: Option<Upload>

    constructor (text: ControlText)
      ensures this.text == text && State() == Endpoint(None, Socket(false, [], 0))
    {
      this.text := text;
      connected, sent, backlog, upload := false, [], 0, None;
    }

    function State(): Endpoint
      reads this
    {
      Endpoint(upload, Socket(connected, sent, backlog))
    }

    /** One accepted socket write. */
    method Accept(f: Frame)
      modifies `sent, `backlog
      ensures Socket(connected, sent, backlog) == Write(old(State()).socket, f)
    {
      sent := sent + [f];
      backlog := backlog + |Wire(f)|;
    }

    /** The next chunk of the file and its frame. */
    method CutChunk(u: Upload) returns (f: Frame, next: Upload)
      requires u.offset < |u.file|
      ensures f == NextChunk(u) && next == Advance(u)
    {
      var size := Min(CHUNK_SIZE, |u.file| - u.offset);
      f := FileChunk(u.chainId, u.next, u.file[u.offset..u.offset + size]);
      next := u.(offset := u.offset + size, next := u.next + 1);
    }

    method PumpFileUpload(budget: nat) returns (ok: bool)
      modifies this
      ensures (State(), ok) == Pump(old(State()), budget, text)
    {
      hide Wire, FrameLength, ChunkCount, NextChunk;
      if upload == None || !connected { return false; }
      var u := upload.value;
      var left := budget;
      ghost var loop := PumpChunks(u, State().socket, budget);
      while u.offset < |u.file| && backlog < MAX_BACKLOG
        invariant upload == Some(u) && connected
        invariant loop == PumpChunks(u, State().socket, left)
        decreases |u.file| - u.offset
      {
        var f, next := CutChunk(u);
        if backlog > 0 && backlog + |Wire(f)| > MAX_BACKLOG { return true; }
        if left == 0 {
          upload := None;
          return false;
        }
        left := left - 1;
        Accept(f);
        u := next;
        upload := Some(u);
      }
      if u.offset != |u.file| || backlog > MAX_BACKLOG - END_FRAME_RESERVE { return true; }
      ok := left > 0;
      if ok {
        Accept(JsonControl(text.end(u.requestId, u.chainId, u.next - 1, |u.file|)));
      }
      upload := None;
    }

    /** Announces a file and starts pumping it. */
    method QueueFileUpload(requestId: string, chainId: nat, file: seq<Byte>, budget: nat) returns (ok: bool)
      requires chainId <= UINT64_MAX
      modifies this
      ensures (!old(connected) || old(upload).Some? || requestId == "" || chainId == 0 || file == []
               || |file| > MAX_FILE_SIZE || budget == 0) ==> !ok && State() == old(State())
      ensures old(connected) && old(upload) == None && requestId != "" && chainId != 0 && file != []
              && |file| <= MAX_FILE_SIZE && budget > 0 ==>
                (State(), ok) == Pump(
                  Endpoint(Some(Upload(requestId, chainId, file, 0, 1)),
                           Write(old(State()).socket, JsonControl(text.begin(requestId, chainId, |file|)))),
                  budget - 1, text)
    {
      if !connected || upload.Some? || requestId == "" || chainId == 0 || file == [] || |file| > MAX_FILE_SIZE {
        return false;
      }
      if budget == 0 { return false; }
      Accept(JsonControl(text.begin(requestId, chainId, |file|)));
      upload := Some(Upload(requestId, chainId, file, 0, 1));
      ok := PumpFileUpload(budget - 1);
    }
  }

  // ----- What one pump does -----

  function FileFrames(fs: seq<Frame>): (r: seq<Frame>) {
    if fs == [] then []
    else FileFrames(fs[..|fs| - 1]) + (if fs[|fs| - 1].FileChunk? then [fs[|fs| - 1]] else [])
  }

  lemma FileFramesAppend(fs: seq<Frame>, f: Frame)
    ensures FileFrames(fs + [f]) == FileFrames(fs) + (if f.FileChunk? then [f] else [])
  {
    assert (fs + [f])[..|fs + [f]| - 1] == fs;
  }

  lemma AdvanceValid(u: Upload)
    requires ValidUpload(u) && u.offset < |u.file|
    ensures ValidUpload(Advance(u)) && u.next <= ChunkCount(|u.file|)
    ensures NextChunk(u) == ChunkFrame(u.chainId, u.file, u.next)
    ensures |Wire(NextChunk(u))| <= CHUNK_SIZE + 21
    ensures ValidFrame(NextChunk(u), _ => true)
  {
  }

  predicate SameFile(u: Upload, v: Upload) {
    u.requestId == v.requestId && u.chainId == v.chainId && u.file == v.file
  }

  /** After the file frames `before` of earlier uploads come the first n chunks of this one. */
  ghost predicate SentChunks(u: Upload, n: nat, before: seq<Frame>, sent: seq<Frame>) {
    n <= ChunkCount(|u.file|) && FileFrames(sent) == before + ChunkFrames(u.chainId, u.file, n)
  }

  ghost predicate Sends(u: Upload, before: seq<Frame>, sent: seq<Frame>) {
    ValidUpload(u) && SentChunks(u, u.next - 1, before, sent)
  }

  lemma OneMoreFrame(chainId: nat, file: seq<Byte>, n: nat, before: seq<Frame>)
    requires 0 < n <= ChunkCount(|file|)
    ensures before + ChunkFrames(chainId, file, n) ==
            before + ChunkFrames(chainId, file, n - 1) + [ChunkFrame(chainId, file, n)]
  {
    hide ChunkCount, ChunkFrame;
  }

  lemma SendNext(u: Upload, s: Socket, before: seq<Frame>)
    requires Sends(u, before, s.sent) && u.offset < |u.file|
    ensures Sends(Advance(u), before, Write(s, NextChunk(u)).sent)
  {
    AdvanceValid(u);
    hide ValidUpload, ChunkCount, NextChunk, FileFrames, Wire, ChunkFrames, ChunkFrame;
    FileFramesAppend(s.sent, NextChunk(u));
    OneMoreFrame(u.chainId, u.file, u.next, before);
  }

  /** The chunk loop appends exactly the next chunks of the file, in order and without gaps. */
  lemma {:induction false} PumpChunksSends(u: Upload, s: Socket, budget: nat, before: seq<Frame>)
    requires Sends(u, before, s.sent)
    ensures var loop := PumpChunks(u, s, budget);
            && s.sent <= loop.socket.sent
            && loop.socket.connected == s.connected
            && (!loop.Broken? ==> SameFile(u, loop.upload) && Sends(loop.upload, before, loop.socket.sent))
            && (loop.Broken? ==> exists k: nat :: SentChunks(u, k, before, loop.socket.sent))
    decreases |u.file| - u.offset
  {
    hide Wire, FrameLength, FileFrames, ChunkFrames, ChunkCount;
    assert SentChunks(u, u.next - 1, before, s.sent);
    if u.offset < |u.file| && budget > 0 {
      SendNext(u, s, before);
      PumpChunksSends(Advance(u), Write(s, NextChunk(u)), budget - 1, before);
      var loop := PumpChunks(Advance(u), Write(s, NextChunk(u)), budget - 1);
      if loop.Broken? {
        var k: nat :| SentChunks(Advance(u), k, before, loop.socket.sent);
        assert SentChunks(u, k, before, loop.socket.sent);
      }
    }
  }

  /** Back-pressure: a write never leaves more than the limit, blocking needs a non-empty backlog,
      an empty socket always makes progress, and only a refused write breaks the loop. */
  lemma {:induction false} PumpChunksBacklog(u: Upload, s: Socket, budget: nat)
    requires ValidUpload(u)
    ensures var loop := PumpChunks(u, s, budget);
            && s.backlog <= loop.socket.backlog
            && (loop.socket != s ==> loop.socket.backlog <= MAX_BACKLOG)
            && loop.socket.connected == s.connected
            && (!loop.Broken? ==> loop.upload.next >= u.next && ValidUpload(loop.upload) && SameFile(u, loop.upload))
            && (loop.Blocked? ==> loop.socket.backlog > 0)
            && (loop.Exited? ==> loop.upload.offset == |u.file| || loop.socket.backlog >= MAX_BACKLOG)
            && (loop.Exited? ==> loop.budget + loop.upload.next == budget + u.next)
            && (s.backlog <= LOW_BACKLOG && u.offset < |u.file| && !loop.Broken? ==> loop.upload.next > u.next)
            && (u.next + budget > ChunkCount(|u.file|) ==> !loop.Broken?)
    decreases |u.file| - u.offset
  {
    hide Wire, FrameLength;
    if u.offset < |u.file| && s.backlog < MAX_BACKLOG {
      AdvanceValid(u);
      if budget > 0 {
        PumpChunksBacklog(Advance(u), Write(s, NextChunk(u)), budget - 1);
      }
    }
  }

  /** All chunks of the file, then the End frame as the last frame sent. */
  ghost predicate Finished(u: Upload, before: seq<Frame>, sent: seq<Frame>, text: ControlText) {
    && SentChunks(u, ChunkCount(|u.file|), before, sent)
    && sent != [] && sent[|sent| - 1] == EndFrame(u, text)
  }

  /** An upload that has read its whole file has sent all of its chunks, and its End frame is the right one. */
  lemma EndSends(u: Upload, v: Upload, before: seq<Frame>, sent: seq<Frame>, text: ControlText)
    requires SameFile(u, v) && Sends(v, before, sent) && v.offset == |v.file|
    ensures SentChunks(u, ChunkCount(|u.file|), before, sent)
    ensures Finished(u, before, sent + [JsonControl(text.end(v.requestId, v.chainId, v.next - 1, |v.file|))], text)
  {
    hide FileFrames, ChunkFrames;
    assert v.next - 1 == ChunkCount(|v.file|);
    FileFramesAppend(sent, EndFrame(u, text));
  }

  /** One pump: what has been sent stays a gapless prefix of the chunks; a pump that ends the
      upload successfully has sent all of them and then the End frame with the true totals. */
  lemma PumpSends(e: Endpoint, budget: nat, text: ControlText, before: seq<Frame>)
    requires e.upload.Some? && Sends(e.upload.value, before, e.socket.sent)
    ensures var u, r := e.upload.value, Pump(e, budget, text);
            && e.socket.sent <= r.0.socket.sent
            && (r.0.upload.Some? ==> SameFile(u, r.0.upload.value) && Sends(r.0.upload.value, before, r.0.socket.sent))
            && (r.0.upload == None && r.1 ==> Finished(u, before, r.0.socket.sent, text))
            && (r.0.upload == None && !r.1 ==> exists k: nat :: SentChunks(u, k, before, r.0.socket.sent))
  {
    hide Wire, FrameLength, ChunkCount, SentChunks, Sends, Finished;
    var u := e.upload.value;
    if e.socket.connected {
      PumpChunksSends(u, e.socket, budget, before);
      var loop := PumpChunks(u, e.socket, budget);
      if loop.Exited? && loop.upload.offset == |loop.upload.file| {
        EndSends(u, loop.upload, before, loop.socket.sent, text);
      }
      hide PumpChunks;
    }
  }

  /** Back-pressure of a whole pump, given that the End frame fits its reserve: whenever anything is
      written the backlog ends at or below the limit, and an upload that stays pending after a
      successful pump leaves bytes in the socket whose departure triggers the next pump. */
  lemma PumpBackpressure(e: Endpoint, budget: nat, text: ControlText)
    requires e.upload.Some? && ValidUpload(e.upload.value)
    requires |Wire(EndFrame(e.upload.value, text))| <= END_FRAME_RESERVE
    ensures var r := Pump(e, budget, text);
            && (r.0.socket.sent != e.socket.sent ==> r.0.socket.backlog <= MAX_BACKLOG)
            && (r.1 && r.0.upload.Some? ==> r.0.socket.backlog > 0)
  {
    hide Wire, FrameLength;
    if e.socket.connected {
      PumpChunksBacklog(e.upload.value, e.socket, budget);
    }
  }

  // ----- When a pump stops -----

  /** From one socket to another some frames were written, and the backlog grew by exactly their bytes. */
  ghost predicate Wrote(s: Socket, t: Socket) {
    s.sent <= t.sent && t.backlog == s.backlog + |WireAll(t.sent[|s.sent|..])| && t.connected == s.connected
  }

  lemma WroteOne(s: Socket, f: Frame, t: Socket)
    requires Wrote(Write(s, f), t)
    ensures Wrote(s, t) && |t.sent| - |s.sent| == |t.sent| - |Write(s, f).sent| + 1
  {
    hide Wire;
    var rest := t.sent[|s.sent| + 1..];
    assert t.sent[|s.sent|..] == [f] + rest;
    assert ([f] + rest)[1..] == rest;
  }

  lemma WroteNothing(s: Socket)
    ensures Wrote(s, s)
  {
  }

  lemma {:induction false} PumpChunksStops(u: Upload, s: Socket, budget: nat)
    ensures var loop := PumpChunks(u, s, budget);
            && Wrote(s, loop.socket) && |loop.socket.sent| - |s.sent| <= budget
            && (loop.Blocked? ==>
                  loop.upload.offset < |loop.upload.file| && loop.socket.backlog > 0
                  && loop.socket.backlog + |Wire(NextChunk(loop.upload))| > MAX_BACKLOG)
            && (loop.Broken? ==> |loop.socket.sent| - |s.sent| == budget)
            && (loop.Exited? ==>
                  && loop.budget == budget - (|loop.socket.sent| - |s.sent|)
                  && (loop.upload.offset >= |loop.upload.file| || loop.socket.backlog >= MAX_BACKLOG))
    decreases |u.file| - u.offset
  {
    WroteNothing(s);
    hide Wire, FrameLength, Wrote;
    if u.offset < |u.file| && s.backlog < MAX_BACKLOG && budget > 0
       && (s.backlog == 0 || s.backlog + |Wire(NextChunk(u))| <= MAX_BACKLOG) {
      PumpChunksStops(Advance(u), Write(s, NextChunk(u)), budget - 1);
      WroteOne(s, NextChunk(u), PumpChunks(Advance(u), Write(s, NextChunk(u)), budget - 1).socket);
    }
  }

  /** A pump over a connected socket. The backlog grows by exactly the bytes written. The upload stays pending only when
      the next chunk would take the backlog beyond 256 KiB, or when all chunks are written and the reserve for the End
      frame is not free. It is given up only when the socket has taken all the writes it was going to take. */
  lemma PumpStops(e: Endpoint, budget: nat, text: ControlText)
    requires e.upload.Some? && ValidUpload(e.upload.value) && e.socket.connected
    ensures var r := Pump(e, budget, text);
            var written := |r.0.socket.sent| - |e.socket.sent|;
            && Wrote(e.socket, r.0.socket) && written <= budget
            && (r.0.upload.Some? ==>
                  var v, backlog := r.0.upload.value, r.0.socket.backlog;
                  && r.1
                  && if v.offset < |v.file| then backlog > 0 && backlog + |Wire(NextChunk(v))| > 256 * 1024
                     else backlog > 256 * 1024 - 4096)
            && (r.0.upload == None && r.1 ==> written > 0 && r.0.socket.sent[|r.0.socket.sent| - 1].JsonControl?)
            && (r.0.upload == None && !r.1 ==> written == budget)
  {
    hide Wire, FrameLength, Wrote, PumpChunks;
    PumpChunksStops(e.upload.value, e.socket, budget);
    PumpChunksBacklog(e.upload.value, e.socket, budget);
    var loop := PumpChunks(e.upload.value, e.socket, budget);
    if loop.Exited? {
      var v := loop.upload;
      WroteEnd(e.socket, loop.socket, JsonControl(text.end(v.requestId, v.chainId, v.next - 1, |v.file|)));
      if v.offset < |v.file| { AdvanceValid(v); ChunkTakesRoom(NextChunk(v)); }
    }
  }

  lemma ChunkTakesRoom(f: Frame)
    ensures |Wire(f)| > 0
  {
  }

  lemma WroteEnd(s: Socket, t: Socket, f: Frame)
    requires Wrote(s, t)
    ensures Wrote(s, Write(t, f))
  {
    hide Wire;
    var before := t.sent[|s.sent|..];
    assert Write(t, f).sent[|s.sent|..] == before + [f];
    WireAllAppend(before, f);
  }

  lemma {:induction false} WireAllAppend(fs: seq<Frame>, f: Frame)
    ensures |WireAll(fs + [f])| == |WireAll(fs)| + |Wire(f)|
  {
    hide Wire;
    if fs == [] {
      assert ([] + [f])[1..] == [] && WireAll([]) == [];
    } else {
      WireAllAppend(fs[1..], f);
      assert (fs + [f])[1..] == fs[1..] + [f];
    }
  }

  /** An upload over a closed connection, or none at all, is not pumped. */
  lemma PumpNeedsConnection(e: Endpoint, budget: nat, text: ControlText)
    ensures e.upload == None || !e.socket.connected ==> Pump(e, budget, text) == (e, false)
  {
  }

  // ----- Whole uploads -----

  /** Between pumps the socket drains and other control frames may be written on the connection. */
  datatype Event = PumpNow(budget: nat) | SocketDrains(left: nat) | OtherControl(json: seq<Byte>) | Disconnect

  datatype Status = Pending | Completed | Failed

  function Step(e: Endpoint, ev: Event, text: ControlText): (r: (Endpoint, Status)) {
    match ev
    case PumpNow(budget) =>
      var (e', ok) := Pump(e, budget, text);
      (e', if e'.upload.Some? then Pending else if ok then Completed else Failed)
    case SocketDrains(left) => (e.(socket := e.socket.(backlog := Min(left, e.socket.backlog))), Pending)
    case OtherControl(json) => (e.(socket := Write(e.socket, JsonControl(json))), Pending)
    case Disconnect => (Endpoint(None, e.socket.(connected := false)), Failed)
  }

  /** Other control frames of the connection are written behind the frames of the upload, a drain only takes bytes away,
      and a disconnect drops the upload. */
  lemma OtherSteps(e: Endpoint, json: seq<Byte>, left: nat, text: ControlText)
    ensures var r := Step(e, OtherControl(json), text);
            r.0.socket.sent == e.socket.sent + [JsonControl(json)] && r.0.upload == e.upload && r.1 == Pending
              && r.0.socket.backlog == e.socket.backlog + 5 + |json|
    ensures var r := Step(e, SocketDrains(left), text);
            r.0.socket.sent == e.socket.sent && r.0.upload == e.upload && r.1 == Pending
              && r.0.socket.backlog <= e.socket.backlog && r.0.socket.backlog <= left
    ensures Step(e, Disconnect, text).0 == Endpoint(None, Socket(false, e.socket.sent, e.socket.backlog))
    ensures Step(e, Disconnect, text).1 == Failed
  {
  }

  function Play(e: Endpoint, events: seq<Event>, text: ControlText): (r: (Endpoint, Status))
    decreases |events|
  {
    if events == [] then (e, Pending) else
    var (e', st) := Step(e, events[0], text);
    if st == Pending then Play(e', events[1..], text) else (e', st)
  }

  /** Over every run of pumps, drains and interleaved control frames. */
  lemma {:induction false} PlaySends(e: Endpoint, events: seq<Event>, text: ControlText, before: seq<Frame>)
    requires e.upload.Some? && Sends(e.upload.value, before, e.socket.sent)
    ensures var u, r := e.upload.value, Play(e, events, text);
            && e.socket.sent <= r.0.socket.sent
            && (r.1 == Pending ==>
                  r.0.upload.Some? && SameFile(u, r.0.upload.value) && Sends(r.0.upload.value, before, r.0.socket.sent))
            && (r.1 == Completed ==> Finished(u, before, r.0.socket.sent, text))
            && (r.1 == Failed ==> exists k: nat :: SentChunks(u, k, before, r.0.socket.sent))
    decreases |events|
  {
    hide Pump, Wire, FrameLength, FileFrames, ChunkFrames, ChunkCount;
    var u := e.upload.value;
    if events != [] {
      match events[0] {
        case PumpNow(budget) => PumpSends(e, budget, text, before);
        case SocketDrains(_) =>
        case OtherControl(json) => FileFramesAppend(e.socket.sent, JsonControl(json));
        case Disconnect => assert SentChunks(u, u.next - 1, before, e.socket.sent);
      }
      var (e', st) := Step(e, events[0], text);
      if st == Pending {
        PlaySends(e', events[1..], text, before);
        var r := Play(e', events[1..], text);
        if r.1 == Failed {
          var k: nat :| SentChunks(e'.upload.value, k, before, r.0.socket.sent);
          assert SentChunks(u, k, before, r.0.socket.sent);
        }
      }
    }
  }

  /** The socket stays connected and takes whatever a pump of a file of this size writes. */
  ghost predicate Accepts(events: seq<Event>, size: nat) {
    forall ev :: ev in events ==> !ev.Disconnect? && (ev.PumpNow? ==> ev.budget > ChunkCount(size))
  }

  /** How many pumps of a run find at most LOW_BACKLOG bytes waiting. */
  function LowPumps(e: Endpoint, events: seq<Event>, text: ControlText): nat
    decreases |events|
  {
    if events == [] then 0
    else
      var (e', st) := Step(e, events[0], text);
      (if events[0].PumpNow? && e.socket.backlog <= LOW_BACKLOG then 1 else 0) +
      if st == Pending then LowPumps(e', events[1..], text) else 0
  }

  /** A pump into an accepting socket never fails, and from a low backlog it gets at least one chunk further. */
  lemma PumpProgress(e: Endpoint, budget: nat, text: ControlText)
    requires e.upload.Some? && ValidUpload(e.upload.value) && e.socket.connected
    requires budget > ChunkCount(|e.upload.value.file|)
    ensures var u, (after, ok) := e.upload.value, Pump(e, budget, text);
            && (after.upload == None ==> ok)
            && (after.upload.Some? ==>
                  && ValidUpload(after.upload.value) && SameFile(u, after.upload.value) && after.socket.connected
                  && after.upload.value.next >= u.next + if e.socket.backlog <= LOW_BACKLOG then 1 else 0)
  {
    var u := e.upload.value;
    PumpChunksBacklog(u, e.socket, budget);
    var loop := PumpChunks(u, e.socket, budget);
    if loop.Exited? { NextWithin(loop.upload); }
    hide Wire, FrameLength, ChunkCount, ValidUpload;
    if u.offset >= |u.file| { assert loop == Exited(u, e.socket, budget); }
    hide PumpChunks;
  }

  lemma NextWithin(u: Upload)
    requires ValidUpload(u)
    ensures u.next - 1 <= ChunkCount(|u.file|)
  {
  }

  /** Over an accepting socket every upload completes in any run that pumps often enough at a low backlog: once for each
      remaining chunk, plus one. Other pumps, drains and control frames may come in between. */
  lemma {:induction false} DrainingSocketCompletes(e: Endpoint, events: seq<Event>, text: ControlText)
    requires e.upload.Some? && ValidUpload(e.upload.value) && e.socket.connected
    requires Accepts(events, |e.upload.value.file|)
    requires LowPumps(e, events, text) + e.upload.value.next > ChunkCount(|e.upload.value.file|) + 1
    ensures Play(e, events, text).1 == Completed
    decreases |events|
  {
    hide Wire, FrameLength, ChunkCount, ValidUpload, Pump;
    NextWithin(e.upload.value);
    var ev := events[0];
    assert ev in events && forall x :: x in events[1..] ==> x in events;
    if ev.PumpNow? { PumpProgress(e, ev.budget, text); }
    var (e', st) := Step(e, ev, text);
    if st == Pending { DrainingSocketCompletes(e', events[1..], text); }
  }

  /** Lets the socket drain completely and pumps again, `rounds` times, for a file of this size. */
  function DrainAndPump(size: nat, rounds: nat): (events: seq<Event>) {
    if rounds == 0 then []
    else [SocketDrains(0), PumpNow(ChunkCount(size) + 2)] + DrainAndPump(size, rounds - 1)
  }

  lemma {:induction false} DrainAndPumpAccepts(size: nat, rounds: nat)
    ensures Accepts(DrainAndPump(size, rounds), size)
  {
    hide ChunkCount;
    if rounds > 0 { DrainAndPumpAccepts(size, rounds - 1); }
  }

  /** Each such round pumps at a low backlog until the upload is over. */
  lemma {:induction false} DrainAndPumpCompletes(e: Endpoint, rounds: nat, text: ControlText)
    requires e.upload.Some? && ValidUpload(e.upload.value) && e.socket.connected
    requires rounds + e.upload.value.next > ChunkCount(|e.upload.value.file|) + 1
    ensures Play(e, DrainAndPump(|e.upload.value.file|, rounds), text).1 == Completed
    decreases rounds
  {
    hide Wire, FrameLength, ChunkCount, ValidUpload, Pump;
    NextWithin(e.upload.value);
    var size := |e.upload.value.file|;
    var events := DrainAndPump(size, rounds);
    var drained := Step(e, SocketDrains(0), text).0;
    assert events[1..][0] == PumpNow(ChunkCount(size) + 2);
    assert events[1..][1..] == DrainAndPump(size, rounds - 1);
    PumpProgress(drained, ChunkCount(size) + 2, text);
    var (e', st) := Step(drained, events[1], text);
    if st == Pending { DrainAndPumpCompletes(e', rounds - 1, text); }
  }
}
