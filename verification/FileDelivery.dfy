/** Delivery of a file through the whole transport: what the node does with each decoded frame, and the theorem from the
    manager's file to the file the node hands on. */
module FileDelivery {
  import opened Bytes
  import opened TcpFrame
  import opened FileUpload
  import opened FileUploadSession

  // ----- The node's dispatch -----

  /** What the control texts of a greeted manager connection say; the parser itself is not modelled. */
  datatype Control =
    | FileUploadBegin(requestId: string, chainId: nat, size: nat)
    | FileUploadEnd(requestId: string, chainId: nat, count: nat, size: nat)
    | OtherMessage
    | Malformed

  type Parser = seq<Byte> -> Control

  datatype Received = Received(requestId: string, chainId: nat, file: seq<Byte>)

  /** The connection with its upload session and the files handed on so far. */
  datatype Node = Node(session: State, handed: seq<Received>, open: bool) {
    predicate Valid() {
      |session.bytes| <= session.size
    }
  }

  const FRESH := Node(IDLE, [], true)

  /** Any upload error resets the session, and a malformed control message ends the connection. */
  function Handle(n: Node, f: Frame, parse: Parser): (r: Node)
    requires n.Valid()
    ensures r.Valid()
  {
    if !n.open then n
    else if f.FileChunk? then
      var t := Append(n.session, f.chainId, f.index, f.data);
      n.(session := if t.Ok? then t.value else IDLE)
    else
      match parse(f.text)
      case FileUploadBegin(requestId, chainId, size) =>
        var t := Begin(n.session, requestId, chainId, size);
        n.(session := if t.Ok? then t.value else IDLE)
      case FileUploadEnd(requestId, chainId, count, size) =>
        var file := Finish(n.session, requestId, chainId, count, size);
        n.(session := IDLE,
           handed := if file.Ok? then n.handed + [Received(requestId, chainId, file.value)] else n.handed)
      case OtherMessage => n
      case Malformed => n.(open := false)
  }

  function HandleAll(n: Node, fs: seq<Frame>, parse: Parser): (r: Node)
    requires n.Valid()
    ensures r.Valid()
  {
    if fs == [] then n else Handle(HandleAll(n, fs[..|fs| - 1], parse), fs[|fs| - 1], parse)
  }

  class Connection {
    const session: UploadSession
    const parse: Parser
    var handed: seq<Received>
    var open: bool

    ghost predicate Valid()
      reads this, session
    {
      session.Valid()
    }

    ghost function Current(): Node
      reads this, session
    {
      Node(session.Current(), handed, open)
    }

    constructor (parse: Parser)
      ensures Valid() && Current() == FRESH && this.parse == parse && fresh(session)
    {
      session := new UploadSession();
      this.parse, handed, open := parse, [], true;
    }

    method HandleFrame(f: Frame)
      requires Valid()
      modifies this, session
      ensures Valid() && Current() == Handle(old(Current()), f, parse)
    {
      if !open { return; }
      if f.FileChunk? {
        var error := session.AppendChunk(f.chainId, f.index, f.data);
        if error.Some? { session.Reset(); }
        return;
      }
      match parse(f.text)
      case FileUploadBegin(requestId, chainId, size) =>
        var error := session.BeginUpload(requestId, chainId, size);
        if error.Some? { session.Reset(); }
      case FileUploadEnd(requestId, chainId, count, size) =>
        var file := session.CompleteUpload(requestId, chainId, count, size);
        if file.Ok? { handed := handed + [Received(requestId, chainId, file.value)]; } else { session.Reset(); }
      case OtherMessage =>
      case Malformed => open := false;
    }
  }

  /** Parsing recovers what the manager wrote. */
  ghost predicate Parses(parse: Parser, text: ControlText) {
    && (forall r, c, s :: parse(text.begin(r, c, s)) == FileUploadBegin(r, c, s))
    && (forall r, c, n, s :: parse(text.end(r, c, n, s)) == FileUploadEnd(r, c, n, s))
  }

  lemma {:induction false} HandleSplit(n: Node, a: seq<Frame>, b: seq<Frame>, parse: Parser)
    requires n.Valid()
    ensures HandleAll(n, a + b, parse) == HandleAll(HandleAll(n, a, parse), b, parse)
  {
    if b == [] {
      assert a + b == a;
    } else {
      var m := |b| - 1;
      HandleSplit(n, a, b[..m], parse);
      assert (a + b)[..|a| + m] == a + b[..m];
    }
  }

  // ----- What lies between the two control frames of an upload -----

  /** File chunks, and control messages that do not concern uploads. */
  ghost predicate Quiet(fs: seq<Frame>, parse: Parser) {
    forall f :: f in fs && f.JsonControl? ==> parse(f.text) == OtherMessage
  }

  /** While an upload is open, such frames do to the session exactly what their chunks do. */
  lemma {:induction false} HandleQuiet(n: Node, fs: seq<Frame>, parse: Parser)
    requires n.Valid() && n.open && Quiet(fs, parse)
    requires AllChunks(FileFrames(fs)) && AppendAll(n.session, FileFrames(fs)).Ok?
    ensures HandleAll(n, fs, parse) == n.(session := AppendAll(n.session, FileFrames(fs)).value)
  {
    if fs != [] {
      var m := |fs| - 1;
      var f := fs[m];
      assert forall g :: g in fs[..m] ==> g in fs;
      assert FileFrames(fs) == FileFrames(fs[..m]) + (if f.FileChunk? then [f] else []);
      if f.FileChunk? {
        var all := FileFrames(fs);
        assert all[..|all| - 1] == FileFrames(fs[..m]);
        assert forall g :: g in FileFrames(fs[..m]) ==> g in all;
      } else {
        assert FileFrames(fs) == FileFrames(fs[..m]);
      }
      HandleQuiet(n, fs[..m], parse);
    }
  }

  /** Everything sent after `base` is quiet. */
  ghost predicate QuietSince(base: seq<Frame>, sent: seq<Frame>, parse: Parser) {
    base <= sent && Quiet(sent[|base|..], parse)
  }

  lemma QuietAppend(base: seq<Frame>, sent: seq<Frame>, f: Frame, parse: Parser)
    requires QuietSince(base, sent, parse) && (f.FileChunk? || parse(f.text) == OtherMessage)
    ensures QuietSince(base, sent + [f], parse)
  {
    assert (sent + [f])[|base|..] == sent[|base|..] + [f];
  }

  lemma {:induction false} PumpChunksQuiet(u: Upload, s: Socket, budget: nat, base: seq<Frame>, parse: Parser)
    requires QuietSince(base, s.sent, parse)
    ensures QuietSince(base, PumpChunks(u, s, budget).socket.sent, parse)
    decreases |u.file| - u.offset
  {
    hide Wire, FrameLength, QuietSince;
    if u.offset < |u.file| && budget > 0 {
      QuietAppend(base, s.sent, NextChunk(u), parse);
      PumpChunksQuiet(Advance(u), Write(s, NextChunk(u)), budget - 1, base, parse);
    }
  }

  /** A run in which the other control messages of the manager do not concern uploads. */
  ghost predicate Undisturbed(events: seq<Event>, parse: Parser) {
    forall e :: e in events && e.OtherControl? ==> parse(e.json) == OtherMessage
  }

  lemma PumpQuiet(e: Endpoint, budget: nat, text: ControlText, base: seq<Frame>, parse: Parser)
    requires e.upload.Some? && QuietSince(base, e.socket.sent, parse)
    ensures var (after, ok) := Pump(e, budget, text);
            && (after.upload.Some? ==> QuietSince(base, after.socket.sent, parse))
            && (after.upload == None && ok ==>
                  var sent := after.socket.sent; sent != [] && QuietSince(base, sent[..|sent| - 1], parse))
  {
    hide Wire, FrameLength, QuietSince;
    if e.socket.connected {
      PumpChunksQuiet(e.upload.value, e.socket, budget, base, parse);
      var loop := PumpChunks(e.upload.value, e.socket, budget);
      var (after, ok) := Pump(e, budget, text);
      if after.upload == None && ok { assert after.socket.sent[..|loop.socket.sent|] == loop.socket.sent; }
    }
  }

  lemma {:induction false} PlayQuiet(e: Endpoint, events: seq<Event>, text: ControlText, base: seq<Frame>,
      parse: Parser)
    requires e.upload.Some? && QuietSince(base, e.socket.sent, parse) && Undisturbed(events, parse)
    requires Play(e, events, text).1 == Completed
    ensures var sent := Play(e, events, text).0.socket.sent; sent != [] && QuietSince(base, sent[..|sent| - 1], parse)
    decreases |events|
  {
    hide Pump, Wire, FrameLength, QuietSince;
    if events != [] {
      var ev := events[0];
      assert ev in events;
      if ev.PumpNow? { PumpQuiet(e, ev.budget, text, base, parse); }
      if ev.OtherControl? { QuietAppend(base, e.socket.sent, JsonControl(ev.json), parse); }
      var (e', st) := Step(e, ev, text);
      if st == Pending {
        assert forall x :: x in events[1..] ==> x in events;
        PlayQuiet(e', events[1..], text, base, parse);
      }
    }
  }

  // ----- End to end -----

  /** Whatever frames a connection carried, every segmentation of its bytes decodes to those frames. */
  lemma Delivered(sent: seq<Frame>, pieces: seq<seq<Byte>>, max: nat, isObject: JsonCheck)
    requires TYPE_SIZE <= max <= UINT32_MAX && AllValid(sent, max, isObject)
    requires Concat(pieces) == WireAll(sent)
    ensures Feed([], pieces, max, isObject) == Parsed(sent, None, [])
  {
    FeedIsDrain([], pieces, max, isObject);
    assert [] + Concat(pieces) == WireAll(sent) + [];
    DrainWires(sent, [], max, isObject);
    assert sent + [] == sent;
  }

  lemma {:induction false} FileFramesContain(fs: seq<Frame>, f: Frame)
    requires f in fs && f.FileChunk?
    ensures f in FileFrames(fs)
  {
    if f != fs[|fs| - 1] { FileFramesContain(fs[..|fs| - 1], f); }
  }

  lemma {:induction false} ChunksFit(chainId: nat, file: seq<Byte>, n: nat, max: nat, isObject: JsonCheck)
    requires 0 < chainId <= UINT64_MAX && |file| <= MAX_FILE_SIZE && n <= ChunkCount(|file|)
    requires CHUNK_SIZE + 17 <= max
    ensures forall f :: f in ChunkFrames(chainId, file, n) ==> ValidFrame(f, isObject) && FrameLength(f) <= max
  {
    if n > 0 { ChunksFit(chainId, file, n - 1, max, isObject); }
  }

  /** The JSON texts a connection carried are objects that fit the frame limit. */
  ghost predicate ControlsFit(sent: seq<Frame>, max: nat, isObject: JsonCheck) {
    forall f :: f in sent && f.JsonControl? ==> isObject(f.text) && TYPE_SIZE + |f.text| <= max
  }

  lemma CompletedSends(u: Upload, start: Socket, events: seq<Event>, text: ControlText)
    requires ValidUpload(u) && u.next == 1
    requires Play(Endpoint(Some(u), start), events, text).1 == Completed
    ensures var sent := Play(Endpoint(Some(u), start), events, text).0.socket.sent;
            && FileFrames(sent) == FileFrames(start.sent) + ChunkFrames(u.chainId, u.file, ChunkCount(|u.file|))
            && sent != [] && sent[|sent| - 1] == EndFrame(u, text)
  {
    hide Play;
    assert FileFrames(start.sent) + ChunkFrames(u.chainId, u.file, 0) == FileFrames(start.sent);
    PlaySends(Endpoint(Some(u), start), events, text, FileFrames(start.sent));
  }

  lemma {:induction false} FileFramesFrom(fs: seq<Frame>, f: Frame)
    requires f in FileFrames(fs)
    ensures f in fs
  {
    if fs != [] && f !in FileFrames(fs[..|fs| - 1]) {
      assert f == fs[|fs| - 1];
    } else if fs != [] {
      FileFramesFrom(fs[..|fs| - 1], f);
    }
  }

  lemma SentFits(u: Upload, earlier: seq<Frame>, sent: seq<Frame>, max: nat, isObject: JsonCheck)
    requires ValidUpload(u) && CHUNK_SIZE + 17 <= max && ControlsFit(sent, max, isObject)
             && AllValid(earlier, max, isObject)
    requires FileFrames(sent) == FileFrames(earlier) + ChunkFrames(u.chainId, u.file, ChunkCount(|u.file|))
    ensures AllValid(sent, max, isObject)
  {
    hide FileFrames, ChunkFrames, ChunkCount;
    ChunksFit(u.chainId, u.file, ChunkCount(|u.file|), max, isObject);
    forall i | 0 <= i < |sent| ensures ValidFrame(sent[i], isObject) && FrameLength(sent[i]) <= max {
      if sent[i].FileChunk? {
        FileFramesContain(sent, sent[i]);
        if sent[i] in FileFrames(earlier) { FileFramesFrom(earlier, sent[i]); }
      }
    }
  }

  lemma {:induction false} FileFramesConcat(a: seq<Frame>, b: seq<Frame>)
    ensures FileFrames(a + b) == FileFrames(a) + FileFrames(b)
  {
    if b == [] {
      assert a + b == a;
    } else {
      var m := |b| - 1;
      FileFramesConcat(a, b[..m]);
      assert (a + b)[..|a| + m] == a + b[..m];
    }
  }

  /** The frames of a completed upload: the Begin frame, quiet frames with all the chunks, and the End frame. */
  lemma CompletedShape(u: Upload, earlier: seq<Frame>, s: Socket, events: seq<Event>, text: ControlText, parse: Parser)
    returns (between: seq<Frame>)
    requires ValidUpload(u) && u.next == 1 && s.sent == earlier + [BeginFrame(u, text)] && Undisturbed(events, parse)
    requires Play(Endpoint(Some(u), s), events, text).1 == Completed
    ensures Play(Endpoint(Some(u), s), events, text).0.socket.sent ==
            earlier + [BeginFrame(u, text)] + between + [EndFrame(u, text)]
    ensures Quiet(between, parse) && FileFrames(between) == ChunkFrames(u.chainId, u.file, ChunkCount(|u.file|))
  {
    var e := Endpoint(Some(u), s);
    var sent := Play(e, events, text).0.socket.sent;
    hide Play, BeginFrame, EndFrame, ChunkFrames, ChunkCount, ValidUpload, FileFrames, Undisturbed;
    CompletedSends(u, s, events, text);
    assert QuietSince(s.sent, s.sent, parse);
    PlayQuiet(e, events, text, s.sent, parse);
    var m := |sent| - 1;
    between := sent[|s.sent|..m];
    assert sent[..m][|s.sent|..] == between;
    assert sent == s.sent + between + [sent[m]];
    FileFramesConcat(s.sent, between);
    FileFramesAppend(s.sent + between, sent[m]);
    assert !sent[m].FileChunk? by { EndIsControl(u, text); }
    var before, chunks := FileFrames(s.sent), ChunkFrames(u.chainId, u.file, ChunkCount(|u.file|));
    assert before + FileFrames(between) == before + chunks;
    assert FileFrames(between) == (before + FileFrames(between))[|before|..] && chunks == (before + chunks)[|before|..];
  }

  lemma EndIsControl(u: Upload, text: ControlText)
    ensures EndFrame(u, text).JsonControl?
  {
  }

  function BeginFrame(u: Upload, text: ControlText): Frame {
    JsonControl(text.begin(u.requestId, u.chainId, |u.file|))
  }

  /** An open connection without an upload in progress hands on exactly the file whose frames it handles next. */
  lemma NodeReceives(n: Node, u: Upload, between: seq<Frame>, text: ControlText, parse: Parser)
    requires n.Valid() && n.open && !n.session.active && ValidUpload(u) && u.requestId != "" && Parses(parse, text)
    requires Quiet(between, parse) && FileFrames(between) == ChunkFrames(u.chainId, u.file, ChunkCount(|u.file|))
    ensures HandleAll(n, [BeginFrame(u, text)] + between + [EndFrame(u, text)], parse) ==
            Node(IDLE, n.handed + [Received(u.requestId, u.chainId, u.file)], true)
  {
    var size := |u.file|;
    var begun := State(true, u.requestId, u.chainId, size, 1, []);
    var n1 := HandleAll(n, [BeginFrame(u, text)], parse);
    assert n1 == n.(session := begun) by { assert HandleAll(n, [], parse) == n; }
    ChunkingIsAccepted(begun, u.file, ChunkCount(size));
    ShapeAll(size);
    assert u.file[..size] == u.file;
    hide ChunkFrames, AppendAll, Quiet, ValidUpload, FileFrames, AllChunks;
    HandleQuiet(n1, between, parse);
    var n2 := n1.(session := begun.(bytes := u.file, next := ChunkCount(size) + 1));
    assert HandleAll(n1, between, parse) == n2;
    HandleSplit(n, [BeginFrame(u, text)], between, parse);
    HandleSplit(n, [BeginFrame(u, text)] + between, [EndFrame(u, text)], parse);
    assert HandleAll(n2, [EndFrame(u, text)], parse) == Handle(n2, EndFrame(u, text), parse) by {
      assert HandleAll(n2, [], parse) == n2;
    }
    hide HandleAll;
  }

  lemma {:induction false} HandleWithoutUpload(n: Node, fs: seq<Frame>, parse: Parser)
    requires n.open && n.session == IDLE && Quiet(fs, parse)
    ensures HandleAll(n, fs, parse) == n
  {
    if fs != [] {
      var m := |fs| - 1;
      assert fs[m] in fs && forall g :: g in fs[..m] ==> g in fs;
      HandleWithoutUpload(n, fs[..m], parse);
    }
  }

  /** A connection whose node still has an upload in progress refuses the new one and forgets both. */
  lemma NodeRefuses(n: Node, u: Upload, between: seq<Frame>, text: ControlText, parse: Parser)
    requires n.Valid() && n.open && n.session.active && Parses(parse, text) && Quiet(between, parse)
    ensures HandleAll(n, [BeginFrame(u, text)] + between + [EndFrame(u, text)], parse) == n.(session := IDLE)
  {
    var n1 := HandleAll(n, [BeginFrame(u, text)], parse);
    assert n1 == n.(session := IDLE) by { assert HandleAll(n, [], parse) == n; }
    hide Quiet;
    HandleWithoutUpload(n1, between, parse);
    HandleSplit(n, [BeginFrame(u, text)], between, parse);
    HandleSplit(n, [BeginFrame(u, text)] + between, [EndFrame(u, text)], parse);
    assert HandleAll(n1, [EndFrame(u, text)], parse) == Handle(n1, EndFrame(u, text), parse) by {
      assert HandleAll(n1, [], parse) == n1;
    }
    hide HandleAll;
  }

  // ----- Uploads that go wrong -----

  /** Frames that announce no upload. */
  ghost predicate NoBegin(fs: seq<Frame>, parse: Parser) {
    forall f :: f in fs && f.JsonControl? ==> parse(f.text) == OtherMessage || parse(f.text).FileUploadEnd?
  }

  lemma {:induction false} IdleHandsOnNothing(n: Node, fs: seq<Frame>, parse: Parser)
    requires n.open && n.session == IDLE && NoBegin(fs, parse)
    ensures HandleAll(n, fs, parse) == n
  {
    if fs != [] {
      var m := |fs| - 1;
      assert fs[m] in fs && forall g :: g in fs[..m] ==> g in fs;
      IdleHandsOnNothing(n, fs[..m], parse);
    }
  }

  /** A refused chunk ends the upload at once: the node is idle, and whatever follows, up to the next announcement,
      hands on nothing. */
  lemma RefusedChunkEndsUpload(n: Node, f: Frame, rest: seq<Frame>, parse: Parser)
    requires n.Valid() && n.open && f.FileChunk? && Append(n.session, f.chainId, f.index, f.data).Err?
    requires NoBegin(rest, parse)
    ensures HandleAll(n, [f] + rest, parse) == n.(session := IDLE)
  {
    HandleSplit(n, [f], rest, parse);
    assert HandleAll(n, [f], parse) == Handle(n, f, parse) by { assert HandleAll(n, [], parse) == n; }
    IdleHandsOnNothing(n.(session := IDLE), rest, parse);
  }

  /** A malformed control message ends the connection: nothing after it has any effect. */
  lemma {:induction false} MalformedEnds(n: Node, text: seq<Byte>, rest: seq<Frame>, parse: Parser)
    requires n.Valid() && n.open && parse(text) == Malformed
    ensures HandleAll(n, [JsonControl(text)] + rest, parse) == n.(open := false)
  {
    var fs := [JsonControl(text)] + rest;
    if rest == [] {
      assert HandleAll(n, [], parse) == n && fs == [JsonControl(text)];
    } else {
      var m := |rest| - 1;
      assert fs[..|fs| - 1] == [JsonControl(text)] + rest[..m];
      MalformedEnds(n, text, rest[..m], parse);
    }
  }

  /** The chunks of frames with one more frame behind them. */
  lemma ChunksOneMore(s: State, fs: seq<Frame>, f: Frame)
    requires |s.bytes| <= s.size && AllChunks(FileFrames(fs + [f]))
    ensures AllChunks(FileFrames(fs))
    ensures f.FileChunk? && AppendAll(s, FileFrames(fs)).Ok? ==>
              AppendAll(s, FileFrames(fs + [f])) ==
              Append(AppendAll(s, FileFrames(fs)).value, f.chainId, f.index, f.data)
    ensures !f.FileChunk? ==> FileFrames(fs + [f]) == FileFrames(fs)
  {
    FileFramesAppend(fs, f);
    var all, before := FileFrames(fs + [f]), FileFrames(fs);
    hide FileFrames;
    assert forall g :: g in before ==> g in all;
    if f.FileChunk? { assert all[|all| - 1] == f && all[..|all| - 1] == before; }
  }

  /** Chunks of which one is refused leave the node idle. */
  lemma {:induction false} HandleRefused(n: Node, fs: seq<Frame>, parse: Parser)
    requires n.Valid() && n.open && Quiet(fs, parse)
    requires AllChunks(FileFrames(fs)) && AppendAll(n.session, FileFrames(fs)).Err?
    ensures HandleAll(n, fs, parse) == n.(session := IDLE)
  {
    if fs != [] {
      var m := |fs| - 1;
      var f := fs[m];
      assert f in fs && forall g :: g in fs[..m] ==> g in fs;
      assert Quiet(fs[..m], parse) && (f.JsonControl? ==> parse(f.text) == OtherMessage);
      assert HandleAll(n, fs, parse) == Handle(HandleAll(n, fs[..m], parse), f, parse);
      assert fs == fs[..m] + [f];
      hide HandleAll, FileFrames, Quiet, AllChunks, AppendAll;
      ChunksOneMore(n.session, fs[..m], f);
      if AppendAll(n.session, FileFrames(fs[..m])).Ok? {
        HandleQuiet(n, fs[..m], parse);
      } else {
        HandleRefused(n, fs[..m], parse);
      }
    }
  }

  lemma {:induction false} AppendKeepsIdentity(s: State, fs: seq<Frame>)
    requires |s.bytes| <= s.size && AllChunks(fs) && AppendAll(s, fs).Ok?
    ensures var t := AppendAll(s, fs).value;
            t.active == s.active && t.requestId == s.requestId && t.chainId == s.chainId && t.size == s.size
  {
    if fs != [] { AppendKeepsIdentity(s, fs[..|fs| - 1]); }
  }

  /** Exactly what an idle node hands on for one announced upload, whatever was sent: the file, once, if and only if
      announcement and end name the same upload, the chunks between them are those of the file in order, and every total
      is right. It is idle again in any case. */
  lemma HandsOnIff(n: Node, begin: seq<Byte>, between: seq<Frame>, end: seq<Byte>, parse: Parser, file: seq<Byte>)
    requires n.open && n.session == IDLE && Quiet(between, parse) && AllChunks(FileFrames(between))
    requires parse(begin).FileUploadBegin? && parse(end).FileUploadEnd?
    ensures var b, e := parse(begin), parse(end);
            var after := HandleAll(n, [JsonControl(begin)] + between + [JsonControl(end)], parse);
            && after.open && after.session == IDLE && n.handed <= after.handed && |after.handed| <= |n.handed| + 1
            && (after.handed == n.handed + [Received(b.requestId, b.chainId, file)] <==>
                  && e.requestId == b.requestId != "" && e.chainId == b.chainId != 0
                  && 0 < |file| <= MAX_FILE_SIZE && b.size == e.size == |file| && e.count == ChunkCount(|file|)
                  && FileFrames(between) == ChunkFrames(b.chainId, file, ChunkCount(|file|)))
  {
    var b, e := parse(begin), parse(end);
    var n1 := HandleAll(n, [JsonControl(begin)], parse);
    var n2 := HandleAll(n1, between, parse);
    assert n1 == Handle(n, JsonControl(begin), parse) by { assert HandleAll(n, [], parse) == n; }
    HandleSplit(n, [JsonControl(begin)], between, parse);
    HandleSplit(n, [JsonControl(begin)] + between, [JsonControl(end)], parse);
    assert HandleAll(n2, [JsonControl(end)], parse) == Handle(n2, JsonControl(end), parse) by {
      assert HandleAll(n2, [], parse) == n2;
    }
    SessionAfter(n1, between, parse);
    if AppendAll(n1.session, FileFrames(between)).Ok? { AppendKeepsIdentity(n1.session, FileFrames(between)); }
    ReceiveExactly(b.requestId, b.chainId, b.size, FileFrames(between), e.count, e.size, file);
    hide HandleAll, AppendAll, Quiet, ChunkFrames, ChunkCount, FileFrames, AllChunks;
    var one := n.handed + [Received(b.requestId, b.chainId, file)];
    assert one != n.handed && one[|n.handed|] == Received(b.requestId, b.chainId, file);
  }

  lemma SessionAfter(n: Node, between: seq<Frame>, parse: Parser)
    requires n.Valid() && n.open && Quiet(between, parse) && AllChunks(FileFrames(between))
    ensures HandleAll(n, between, parse) ==
            n.(session := if AppendAll(n.session, FileFrames(between)).Ok?
                          then AppendAll(n.session, FileFrames(between)).value else IDLE)
  {
    if AppendAll(n.session, FileFrames(between)).Ok? {
      HandleQuiet(n, between, parse);
    } else {
      HandleRefused(n, between, parse);
    }
  }

  /** End-to-end upload. From the moment an upload is announced on a connection, over every run of pumps, drains and
      interleaved control frames that completes it, and for every segmentation of the bytes by the network: the node
      decodes exactly the frames sent, and handling them one by one hands on exactly this file, once, after whatever was
      handed on before, if and only if nothing sent before left an upload in progress at the node. */
  lemma UploadDelivers(
      u: Upload, earlier: seq<Frame>, start: Socket, events: seq<Event>, text: ControlText, parse: Parser,
      pieces: seq<seq<Byte>>, max: nat, isObject: JsonCheck)
    requires ValidUpload(u) && u.next == 1 && u.requestId != "" && start.sent == earlier + [BeginFrame(u, text)]
    requires Parses(parse, text) && Undisturbed(events, parse) && AllValid(start.sent, max, isObject)
    requires HandleAll(FRESH, earlier, parse).open
    requires Play(Endpoint(Some(u), start), events, text).1 == Completed
    requires CHUNK_SIZE + 17 <= max <= UINT32_MAX
    requires var sent := Play(Endpoint(Some(u), start), events, text).0.socket.sent;
             ControlsFit(sent, max, isObject) && Concat(pieces) == WireAll(sent)
    ensures var fs := Feed([], pieces, max, isObject).frames;
            && Feed([], pieces, max, isObject) == Parsed(fs, None, [])
            && fs == Play(Endpoint(Some(u), start), events, text).0.socket.sent
            && var before := HandleAll(FRESH, earlier, parse);
               HandleAll(FRESH, fs, parse) ==
                 Node(IDLE, before.handed + (if before.session.active then []
                                             else [Received(u.requestId, u.chainId, u.file)]), true)
  {
    hide Play, Feed, WireAll, Wire, FileFrames, ChunkFrames, AllValid, EndFrame, BeginFrame, ChunkCount, HandleAll,
         Parses, Undisturbed, ControlsFit;
    var sent := Play(Endpoint(Some(u), start), events, text).0.socket.sent;
    CompletedSends(u, start, events, text);
    SentFits(u, start.sent, sent, max, isObject);
    Delivered(sent, pieces, max, isObject);
    var between := CompletedShape(u, earlier, start, events, text, parse);
    var upload := [BeginFrame(u, text)] + between + [EndFrame(u, text)];
    assert sent == earlier + upload;
    HandleSplit(FRESH, earlier, upload, parse);
    var before := HandleAll(FRESH, earlier, parse);
    if before.session.active {
      NodeRefuses(before, u, between, text, parse);
    } else {
      NodeReceives(before, u, between, text, parse);
    }
  }

  lemma {:induction false} DrainAndPumpUndisturbed(size: nat, rounds: nat, parse: Parser)
    ensures Undisturbed(DrainAndPump(size, rounds), parse)
  {
    if rounds > 0 { DrainAndPumpUndisturbed(size, rounds - 1, parse); }
  }

  /** The first chunk of an upload cannot be written, so the manager drops the upload; the connection stays. */
  lemma DroppedUpload(v: Upload, text: ControlText)
    requires ValidUpload(v) && v.next == 1
    ensures Pump(Endpoint(Some(v), Socket(true, [BeginFrame(v, text)], 0)), 0, text) ==
            (Endpoint(None, Socket(true, [BeginFrame(v, text)], 0)), false)
  {
    hide Wire, FrameLength, BeginFrame;
  }

  lemma OpensSession(v: Upload, text: ControlText, parse: Parser)
    requires ValidUpload(v) && v.requestId != "" && Parses(parse, text)
    ensures var n := HandleAll(FRESH, [BeginFrame(v, text)], parse);
            n.open && n.session.active && n.handed == []
  {
    assert HandleAll(FRESH, [], parse) == FRESH;
  }

  /** After such a dropped upload v the next upload u of the connection is lost, although the manager completes it over
      a socket that accepts and drains everything. */
  lemma NextUploadLost(v: Upload, u: Upload, text: ControlText, parse: Parser)
    requires ValidUpload(v) && v.next == 1 && v.requestId != "" && ValidUpload(u) && u.next == 1 && u.requestId != ""
    requires Parses(parse, text)
    ensures var dropped := Pump(Endpoint(Some(v), Socket(true, [BeginFrame(v, text)], 0)), 0, text).0;
            var events := DrainAndPump(|u.file|, ChunkCount(|u.file|) + 1);
            var r := Play(Endpoint(Some(u), Write(dropped.socket, BeginFrame(u, text))), events, text);
            r.1 == Completed && HandleAll(FRESH, r.0.socket.sent, parse) == FRESH
  {
    hide Wire, FrameLength, Pump, HandleAll, Handle, BeginFrame, EndFrame, Parses, ValidUpload, Play, DrainAndPump,
         Undisturbed, Quiet, ChunkCount, ChunkFrames, FileFrames;
    DroppedUpload(v, text);
    var earlier := [BeginFrame(v, text)];
    var s := Write(Socket(true, earlier, 0), BeginFrame(u, text));
    var events := DrainAndPump(|u.file|, ChunkCount(|u.file|) + 1);
    var before := HandleAll(FRESH, earlier, parse);
    OpensSession(v, text, parse);
    DrainAndPumpCompletes(Endpoint(Some(u), s), ChunkCount(|u.file|) + 1, text);
    DrainAndPumpUndisturbed(|u.file|, ChunkCount(|u.file|) + 1, parse);
    var between := CompletedShape(u, earlier, s, events, text, parse);
    var upload := [BeginFrame(u, text)] + between + [EndFrame(u, text)];
    assert Play(Endpoint(Some(u), s), events, text).0.socket.sent == earlier + upload;
    HandleSplit(FRESH, earlier, upload, parse);
    NodeRefuses(before, u, between, text, parse);
  }
}
