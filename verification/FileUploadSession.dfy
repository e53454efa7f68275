/** The receiving node's upload session, and delivery of a file through the whole transport. */
module FileUploadSession {
  import opened Bytes
  import opened TcpFrame
  import opened FileUpload

  datatype SessionError = NotActive | AlreadyActive | InvalidArgument

  datatype State = State(active: bool, requestId: string, chainId: nat, size: nat, next: ChunkIndex, bytes: seq<Byte>)

  const IDLE := State(false, "", 0, 0, 1, [])

  function Begin(s: State, requestId: string, chainId: nat, size: nat): (r: Result<State, SessionError>) {
    if s.active then Err(AlreadyActive)
    else if requestId == "" || chainId == 0 || size == 0 || size > MAX_FILE_SIZE then Err(InvalidArgument)
    else Ok(State(true, requestId, chainId, size, 1, []))
  }

  function Append(s: State, chainId: nat, index: nat, data: seq<Byte>): (r: Result<State, SessionError>)
    requires |s.bytes| <= s.size
  {
    if !s.active then Err(NotActive)
    else if chainId != s.chainId || index != s.next || |data| != Min(CHUNK_SIZE, s.size - |s.bytes|) then
      Err(InvalidArgument)
    else Ok(s.(bytes := s.bytes + data, next := s.next + 1))
  }

  function Finish(s: State, requestId: string, chainId: nat, count: nat, size: nat)
    : (r: Result<seq<Byte>, SessionError>)
  {
    if !s.active then Err(NotActive)
    else if requestId != s.requestId || chainId != s.chainId || count != s.next - 1
            || size != |s.bytes| || size != s.size then Err(InvalidArgument)
    else Ok(s.bytes)
  }

  class UploadSession {
    var active: bool
    var requestId: string
    var chainId: nat
    var size: nat
    var next: ChunkIndex
    var bytes: seq<Byte>

    ghost predicate Valid()
      reads this
    {
      |bytes| <= size
    }

    ghost function Current(): State
      reads this
    {
      State(active, requestId, chainId, size, next, bytes)
    }

    constructor ()
      ensures Valid() && Current() == IDLE
    {
      active, requestId, chainId, size, next, bytes := false, "", 0, 0, 1, [];
    }

    method BeginUpload(requestId: string, chainId: nat, size: nat) returns (error: Option<SessionError>)
      requires Valid()
      modifies this
      ensures Valid()
      ensures var r := Begin(old(Current()), requestId, chainId, size);
              && (r.Ok? ==> error == None && Current() == r.value)
              && (r.Err? ==> error == Some(r.error) && Current() == old(Current()))
    {
      if active { return Some(AlreadyActive); }
      if requestId == "" || chainId == 0 || size == 0 || size > MAX_FILE_SIZE { return Some(InvalidArgument); }
      active := true;
      this.requestId, this.chainId, this.size := requestId, chainId, size;
      next, bytes := 1, [];
      error := None;
    }

    method AppendChunk(chainId: nat, index: nat, data: seq<Byte>) returns (error: Option<SessionError>)
      requires Valid()
      modifies this
      ensures Valid()
      ensures var r := Append(old(Current()), chainId, index, data);
              && (r.Ok? ==> error == None && Current() == r.value)
              && (r.Err? ==> error == Some(r.error) && Current() == old(Current()))
    {
      if !active { return Some(NotActive); }
      if chainId != this.chainId { return Some(InvalidArgument); }
      if index != next { return Some(InvalidArgument); }
      var remaining := size - |bytes|;
      if |data| != Min(CHUNK_SIZE, remaining) { return Some(InvalidArgument); }
      bytes := bytes + data;
      next := next + 1;
      error := None;
    }

    method CompleteUpload(requestId: string, chainId: nat, count: nat, size: nat)
      returns (file: Result<seq<Byte>, SessionError>)
      requires Valid()
      modifies this
      ensures Valid()
      ensures file == Finish(old(Current()), requestId, chainId, count, size)
      ensures Current() == if file.Ok? then IDLE else old(Current())
    {
      if !active { return Err(NotActive); }
      if requestId != this.requestId || chainId != this.chainId { return Err(InvalidArgument); }
      if count != next - 1 { return Err(InvalidArgument); }
      if size != |bytes| || size != this.size { return Err(InvalidArgument); }
      file := Ok(bytes);
      Reset();
    }

    method Reset()
      modifies this
      ensures Valid() && Current() == IDLE
    {
      active, requestId, chainId, size, next, bytes := false, "", 0, 0, 1, [];
    }
  }

  // ----- The session accepts exactly the manager's chunking -----

  /** Appends chunk frames in order, failing at the first one refused. */
  function AppendAll(s: State, fs: seq<Frame>): (r: Result<State, SessionError>)
    requires |s.bytes| <= s.size && (forall f :: f in fs ==> f.FileChunk?)
    ensures r.Ok? ==> |r.value.bytes| <= r.value.size
  {
    if fs == [] then Ok(s) else
    var f := fs[|fs| - 1];
    match AppendAll(s, fs[..|fs| - 1])
    case Err(e) => Err(e)
    case Ok(t) => Append(t, f.chainId, f.index, f.data)
  }

  /** A whole upload as the node sees it. */
  function Receive(requestId: string, chainId: nat, declared: nat, fs: seq<Frame>, count: nat, size: nat)
    : (r: Result<seq<Byte>, SessionError>)
    requires forall f :: f in fs ==> f.FileChunk?
  {
    match Begin(IDLE, requestId, chainId, declared)
    case Err(e) => Err(e)
    case Ok(s) =>
      match AppendAll(s, fs)
      case Err(e) => Err(e)
      case Ok(t) => Finish(t, requestId, chainId, count, size)
  }

  ghost predicate AllChunks(fs: seq<Frame>) {
    forall f :: f in fs ==> f.FileChunk? && f.data != []
  }

  /** Which error is reported: an upload that is or is not open decides first, and everything else is an invalid
      argument. A chunk that is taken is the next of its upload and fills the remaining size up to a whole chunk. */
  lemma ErrorsIff(s: State, requestId: string, chainId: nat, size: nat, index: nat, count: nat, data: seq<Byte>)
    requires |s.bytes| <= s.size
    ensures Begin(s, requestId, chainId, size) == Err(AlreadyActive) <==> s.active
    ensures Begin(s, requestId, chainId, size) == Err(InvalidArgument) <==>
            !s.active && !(|requestId| > 0 && chainId > 0 && 0 < size <= MAX_FILE_SIZE)
    ensures Append(s, chainId, index, data) == Err(NotActive) <==> !s.active
    ensures Append(s, chainId, index, data) == Err(InvalidArgument) <==>
            s.active && !(chainId == s.chainId && index == s.next && |s.bytes| + |data| <= s.size
              && |data| <= CHUNK_SIZE
                          && (|data| == CHUNK_SIZE || |s.bytes| + |data| == s.size))
    ensures Finish(s, requestId, chainId, count, size) == Err(NotActive) <==> !s.active
    ensures Finish(s, requestId, chainId, count, size) == Err(InvalidArgument) <==>
            s.active && !(requestId == s.requestId && chainId == s.chainId && count + 1 == s.next
                          && size == s.size == |s.bytes|)
  {
  }

  lemma ChunkArithmetic(m: nat, size: nat)
    requires m * CHUNK_SIZE < size
    ensures m < ChunkCount(size)
    ensures m * CHUNK_SIZE + Min(CHUNK_SIZE, size - m * CHUNK_SIZE) == Min((m + 1) * CHUNK_SIZE, size)
  {
  }

  /** Accepted chunks carry full 64 KiB, except a shorter last one, and never exceed the declared size. */
  lemma {:induction false} AcceptedShape(s: State, fs: seq<Frame>)
    requires s.active && s.bytes == [] && s.next == 1 && AllChunks(fs)
    requires AppendAll(s, fs).Ok?
    ensures var t := AppendAll(s, fs).value;
            && t == s.(bytes := t.bytes, next := |fs| + 1)
            && |fs| <= ChunkCount(s.size)
            && |t.bytes| == Min(|fs| * CHUNK_SIZE, s.size)
  {
    if fs != [] {
      var m := |fs| - 1;
      AcceptedShape(s, fs[..m]);
      assert fs[m].data != [];
      if m * CHUNK_SIZE < s.size { ChunkArithmetic(m, s.size); }
    }
  }

  lemma ExtendChunking(chainId: nat, file: seq<Byte>, m: nat, data: seq<Byte>)
    requires m * CHUNK_SIZE < |file| && data == file[m * CHUNK_SIZE..Min((m + 1) * CHUNK_SIZE, |file|)]
    ensures m + 1 <= ChunkCount(|file|)
    ensures ChunkFrames(chainId, file, m + 1) == ChunkFrames(chainId, file, m) + [FileChunk(chainId, m + 1, data)]
  {
  }

  lemma LastAppended(s: State, fs: seq<Frame>)
    requires s.active && s.bytes == [] && s.next == 1 && AllChunks(fs) && fs != []
    requires AppendAll(s, fs).Ok?
    ensures var m := |fs| - 1;
            && AllChunks(fs[..m]) && AppendAll(s, fs[..m]).Ok?
            && AppendAll(s, fs).value.bytes == AppendAll(s, fs[..m]).value.bytes + fs[m].data
            && |AppendAll(s, fs[..m]).value.bytes| == m * CHUNK_SIZE < s.size
            && fs[m] == FileChunk(s.chainId, m + 1, fs[m].data)
            && |fs[m].data| == Min(CHUNK_SIZE, s.size - m * CHUNK_SIZE)
  {
    hide ChunkCount;
    var m := |fs| - 1;
    AcceptedShape(s, fs[..m]);
    assert fs[m] in fs;
  }

  /** Whatever has been accepted so far is the unique chunking of the bytes received. */
  lemma {:induction false} AcceptedIsChunking(s: State, fs: seq<Frame>, file: seq<Byte>)
    requires s.active && s.bytes == [] && s.next == 1 && AllChunks(fs) && |file| == s.size
    requires AppendAll(s, fs).Ok? && AppendAll(s, fs).value.bytes <= file
    ensures |fs| <= ChunkCount(s.size) && fs == ChunkFrames(s.chainId, file, |fs|)
  {
    hide ChunkCount, AppendAll, ChunkFrames;
    AcceptedShape(s, fs);
    if fs != [] {
      var m := |fs| - 1;
      LastAppended(s, fs);
      AcceptedIsChunking(s, fs[..m], file);
      var done := AppendAll(s, fs[..m]).value.bytes;
      assert file[m * CHUNK_SIZE..|done| + |fs[m].data|] == fs[m].data;
      ExtendChunking(s.chainId, file, m, fs[m].data);
      assert fs == fs[..m] + [fs[m]];
    }
  }

  /** Chunk n of a file continues exactly where the first n-1 chunks end. */
  lemma ChunkContinues(chainId: nat, file: seq<Byte>, n: nat)
    requires 0 < n <= ChunkCount(|file|)
    ensures (n - 1) * CHUNK_SIZE < |file|
    ensures var f := ChunkFrame(chainId, file, n);
            && f.FileChunk? && f.chainId == chainId && f.index == n && f.data != []
            && |f.data| == Min(CHUNK_SIZE, |file| - (n - 1) * CHUNK_SIZE)
            && Min((n - 1) * CHUNK_SIZE, |file|) == (n - 1) * CHUNK_SIZE
            && file[..(n - 1) * CHUNK_SIZE] + f.data == file[..Min(n * CHUNK_SIZE, |file|)]
  {
  }

  lemma AppendNext(s: State, fs: seq<Frame>, f: Frame)
    requires |s.bytes| <= s.size && AllChunks(fs) && f.FileChunk? && f.data != [] && AppendAll(s, fs).Ok?
    ensures AllChunks(fs + [f])
    ensures AppendAll(s, fs + [f]) == Append(AppendAll(s, fs).value, f.chainId, f.index, f.data)
  {
    assert (fs + [f])[..|fs|] == fs;
  }

  /** The session that holds the first n-1 chunks of a file takes chunk n. */
  lemma OneMoreChunk(s: State, file: seq<Byte>, n: nat)
    requires s.active && |file| == s.size && 0 < n <= ChunkCount(|file|)
    ensures (n - 1) * CHUNK_SIZE < |file|
    ensures var f := ChunkFrame(s.chainId, file, n);
            var before := s.(bytes := file[..Min((n - 1) * CHUNK_SIZE, |file|)], next := n);
            && f.FileChunk? && f.data != []
            && Append(before, f.chainId, f.index, f.data) ==
               Ok(s.(bytes := file[..Min(n * CHUNK_SIZE, |file|)], next := n + 1))
  {
    ChunkContinues(s.chainId, file, n);
    hide ChunkCount, ChunkFrame;
  }

  lemma {:induction false} ChunkingIsAccepted(s: State, file: seq<Byte>, n: nat)
    requires s.active && s.bytes == [] && s.next == 1 && |file| == s.size && n <= ChunkCount(|file|)
    ensures AllChunks(ChunkFrames(s.chainId, file, n))
    ensures AppendAll(s, ChunkFrames(s.chainId, file, n))
         == Ok(s.(bytes := file[..Min(n * CHUNK_SIZE, |file|)], next := n + 1))
  {
    hide ChunkCount, AppendAll, AllChunks, ChunkFrame, Append, Min;
    if n > 0 {
      OneMoreChunk(s, file, n);
      ChunkingIsAccepted(s, file, n - 1);
      AppendNext(s, ChunkFrames(s.chainId, file, n - 1), ChunkFrame(s.chainId, file, n));
    } else {
      NothingSent(s, file);
    }
  }

  lemma NothingSent(s: State, file: seq<Byte>)
    requires s.bytes == [] && s.next == 1 && |file| == s.size
    ensures AllChunks(ChunkFrames(s.chainId, file, 0))
    ensures AppendAll(s, ChunkFrames(s.chainId, file, 0)) ==
            Ok(s.(bytes := file[..Min(0 * CHUNK_SIZE, |file|)], next := 1))
  {
  }

  /** The node returns a file if and only if it was sent that file's chunks, all of them, in order,
      with matching totals. */
  lemma ReceiveExactly(
      requestId: string, chainId: nat, declared: nat, fs: seq<Frame>, count: nat, size: nat, file: seq<Byte>)
    requires AllChunks(fs)
    ensures Receive(requestId, chainId, declared, fs, count, size) == Ok(file)
       <==> && requestId != "" && chainId != 0
            && 0 < |file| <= MAX_FILE_SIZE && declared == size == |file|
            && count == ChunkCount(|file|) && fs == ChunkFrames(chainId, file, ChunkCount(|file|))
  {
    hide AppendAll, ChunkFrames, ChunkCount;
    var s := State(true, requestId, chainId, declared, 1, []);
    var n := ChunkCount(|file|);
    if Receive(requestId, chainId, declared, fs, count, size) == Ok(file) {
      AcceptedShape(s, fs);
      ShapeComplete(|fs|, |file|);
      AcceptedIsChunking(s, fs, file);
    }
    if requestId != "" && chainId != 0 && 0 < |file| <= MAX_FILE_SIZE && declared == |file|
       && fs == ChunkFrames(chainId, file, n) {
      ChunkingIsAccepted(s, file, n);
      ShapeAll(|file|);
      assert file[..|file|] == file;
    }
  }

  lemma ShapeComplete(n: nat, size: nat)
    requires n <= ChunkCount(size) && Min(n * CHUNK_SIZE, size) == size
    ensures n == ChunkCount(size)
  {
  }

  lemma ShapeAll(size: nat)
    ensures Min(ChunkCount(size) * CHUNK_SIZE, size) == size
  {
  }
}
