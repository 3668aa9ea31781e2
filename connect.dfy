/** src/main.rs: reading the CONNECT preamble a client sends before its traffic. */
module Connect {
  import opened Common

  /** `ConnectType`: what the client asked to be connected to. The reader only yields `Http`. */
  datatype ConnectType = Http(hostname: string) | Socks4Ip(ip: seq<byte>) | Socks4Host(hostname: string)

  /** What successive `read` calls on the client socket deliver; `Data([])` is the peer closing, and every read returns: past the last chunk the stream has ended. */
  datatype Chunk = Data(bytes: seq<byte>) | Failure(message: string)

  /**
   * One `read` into `room` free bytes of a buffer: the bytes read and the
   * stream left. A read into no room, on a closed stream, returns no bytes; a
   * chunk larger than the room is delivered in part, the rest kept for later.
   */
  function Receive(pending: seq<Chunk>, room: nat): (got: (Result<seq<byte>>, seq<Chunk>))
    ensures got.0.Ok? ==> |got.0.value| <= room
    ensures (got.0.Ok? && got.0.value == []) <==> (room == 0 || pending == [] || pending[0] == Data([]))
    ensures got.0.Ok? && got.0.value != [] ==> pending[0].Data? && got.0.value <= pending[0].bytes
    ensures (forall i :: 0 <= i < |pending| ==> pending[i].Data?) ==>
              got.0.Ok? && forall i :: 0 <= i < |got.1| ==> got.1[i].Data?
  {
    if room == 0 || pending == [] then (Ok([]), pending)
    else
      match pending[0]
      case Failure(message) => (Err(Upstream(message)), pending[1..])
      case Data(bytes) =>
        if |bytes| <= room then (Ok(bytes), pending[1..])
        else (Ok(bytes[..room]), [Data(bytes[room..])] + pending[1..])
  }

  /** `buf` after `data` is written at index `from`. */
  function Fill(buf: seq<byte>, from: nat, data: seq<byte>): (r: seq<byte>)
    requires from + |data| <= |buf|
    ensures |r| == |buf|
  {
    buf[..from] + data + buf[from + |data|..]
  }

  /** The client's TCP stream, as the chunks it has still to deliver. */
  class Socket {
    var pending: seq<Chunk>

    constructor (chunks: seq<Chunk>)
      ensures pending == chunks
    {
      pending := chunks;
    }

    /** `socket.read(&mut buf[from..])`: fills `buf` from index `from` and says how many bytes came. */
    method Read(buf: array<byte>, from: nat) returns (r: Result<nat>)
      requires from <= buf.Length
      modifies this, buf
      ensures var got := Receive(old(pending), buf.Length - from);
              && pending == got.1
              && (got.0.Err? ==> r == Err(got.0.error) && buf[..] == old(buf[..]))
              && (got.0.Ok? ==> r == Ok(|got.0.value|)
                                && buf[..] == Fill(old(buf[..]), from, got.0.value))
    {
      var got := Receive(pending, buf.Length - from);
      pending := got.1;
      match got.0 {
        case Err(e) =>
          return Err(e);
        case Ok(data) =>
          for i := 0 to |data|
            invariant pending == got.1
            invariant forall k :: 0 <= k < from ==> buf[k] == old(buf[k])
            invariant forall k :: 0 <= k < i ==> buf[from + k] == data[k]
            invariant forall k :: from + i <= k < buf.Length ==> buf[k] == old(buf[k])
          {
            buf[from + i] := data[i];
          }
          assert buf[..] == Fill(old(buf[..]), from, data);
          return Ok(|data|);
      }
    }
  }

  /** What `httparse::Request::parse` reports: more bytes needed, a request line, or an error. */
  datatype ParseStatus = Partial | Complete(requestMethod: Option<string>, path: Option<string>) | Invalid

  /** `httparse`, as a function of the bytes it is given. */
  type RequestParser = seq<byte> -> ParseStatus

  const UpperC: byte := 0x43  // 'C'
  const LowerC: byte := 0x63  // 'c'

  /**
   * How one turn of the reading loop ends: with an outcome and the stream and
   * buffer it leaves, or with the state to read on from.
   */
  datatype Turn = Done(outcome: Result<ConnectType>, pending: seq<Chunk>, buf: seq<byte>)
                | Again(pending: seq<Chunk>, buf: seq<byte>, progress: nat)

  /**
   * One turn of `read_initialisation` with `progress` valid bytes at the front
   * of `buf`: read more, passing on a failed read, then judge what was read.
   */
  function NextTurn(pending: seq<Chunk>, buf: seq<byte>, progress: nat, parse: RequestParser): (t: Turn)
    requires progress <= |buf|
    ensures |t.buf| == |buf|
    ensures t.Again? ==> && progress < t.progress <= |buf|
                         && t.buf[..progress] == buf[..progress]
                         && t.buf[t.progress..] == buf[t.progress..]
                         && Receive(pending, |buf| - progress) == (Ok(t.buf[progress..t.progress]), t.pending)
  {
    var got := Receive(pending, |buf| - progress);
    match got.0
    case Err(e) => Done(Err(e), got.1, buf)
    case Ok(data) => AfterRead(got.1, Fill(buf, progress, data), progress, progress + |data|, parse)
  }

  /**
   * The checks after a read took the valid bytes from `start` to `end`: no
   * bytes is an unexpected end of file; the first byte must be `C` or `c`;
   * the parser, given the WHOLE buffer, asks for more, rejects, or yields a
   * request, which must be `CONNECT` with a path.
   */
  function AfterRead(pending: seq<Chunk>, buf: seq<byte>, start: nat, end: nat, parse: RequestParser): (t: Turn)
    requires start <= end <= |buf|
    ensures t.buf == buf && t.pending == pending
    ensures t.Again? ==> t.progress == end > start
  {
    if end == start then Done(Err(UnexpectedEof), pending, buf)
    else
      var valid := buf[..end];
      if valid[0] != UpperC && valid[0] != LowerC then Done(Err(Unrecognised(valid)), pending, buf)
      else
        match parse(buf)
        case Invalid => Done(Err(HttpParse), pending, buf)
        case Partial => Again(pending, buf, end)
        case Complete(requestMethod, path) =>
          if requestMethod != Some("CONNECT") then Done(Err(InvalidMethod(requestMethod)), pending, buf)
          else if path.None? then Done(Err(NoPath), pending, buf)
          else Done(Ok(Http(path.value)), pending, buf)
  }

  /** `read_initialisation` from a given state: turns until one is done, with what it leaves. */
  function Preamble(pending: seq<Chunk>, buf: seq<byte>, progress: nat, parse: RequestParser): (t: Turn)
    requires progress <= |buf|
    ensures t.Done? && |t.buf| == |buf|
    decreases |buf| - progress
  {
    var t := NextTurn(pending, buf, progress, parse);
    if t.Done? then t else Preamble(t.pending, t.buf, t.progress, parse)
  }

  /**
   * One pass of the loop of `read_initialisation`: a read into `buf[progress..]`
   * and the checks on what it brought. It stops with the outcome, or gives the
   * new `progress` to read on from.
   */
  method TakeTurn(socket: Socket, buf: array<byte>, progress: nat, parse: RequestParser)
      returns (stop: Option<Result<ConnectType>>, next: nat)
    requires progress <= buf.Length
    modifies socket, buf
    ensures var t := NextTurn(old(socket.pending), old(buf[..]), progress, parse);
            && socket.pending == t.pending && buf[..] == t.buf
            && (t.Done? ==> stop == Some(t.outcome))
            && (t.Again? ==> stop == None && next == t.progress)
  {
    next := progress;
    var found := socket.Read(buf, progress);
    if found.Err? {
      return Some(Err(found.error)), next;
    }
    next := progress + found.value;
    assert NextTurn(old(socket.pending), old(buf[..]), progress, parse)
        == AfterRead(socket.pending, buf[..], progress, next, parse);
    if next == progress {
      return Some(Err(UnexpectedEof)), next;
    }
    var valid := buf[..next];
    if valid[0] != UpperC && valid[0] != LowerC {
      return Some(Err(Unrecognised(valid))), next;
    }
    var status := parse(buf[..]);
    match status {
      case Invalid => stop := Some(Err(HttpParse));
      case Partial => stop := None;
      case Complete(requestMethod, path) =>
        if requestMethod != Some("CONNECT") {
          stop := Some(Err(InvalidMethod(requestMethod)));
        } else if path.None? {
          stop := Some(Err(NoPath));
        } else {
          stop := Some(Ok(Http(path.value)));
        }
    }
  }

  /**
   * `read_initialisation`: reads into `buf[progress..]` until the parser
   * accepts or something fails. The valid bytes are `buf[..progress]`;
   * `progress` grows by what each read returns and never passes the buffer's end.
   */
  method ReadInitialisation(socket: Socket, buf: array<byte>, parse: RequestParser) returns (r: Result<ConnectType>)
    modifies socket, buf
    ensures var t := Preamble(old(socket.pending), old(buf[..]), 0, parse);
            r == t.outcome && socket.pending == t.pending && buf[..] == t.buf
  {
    ghost var goal := Preamble(socket.pending, buf[..], 0, parse);
    var progress: nat := 0;
    while true
      invariant progress <= buf.Length
      invariant Preamble(socket.pending, buf[..], progress, parse) == goal
      decreases buf.Length - progress
    {
      ghost var turn := NextTurn(socket.pending, buf[..], progress, parse);
      assert Preamble(socket.pending, buf[..], progress, parse)
          == if turn.Done? then turn else Preamble(turn.pending, turn.buf, turn.progress, parse);
      var stop, next := TakeTurn(socket, buf, progress, parse);
      if stop.Some? {
        return stop.value;
      }
      progress := next;
    }
  }

  const BufferSize := 4096

  /** How `worker` calls the reader: on a fresh zeroed buffer of 4096 bytes. */
  method ReadFromFreshBuffer(socket: Socket, parse: RequestParser) returns (r: Result<ConnectType>)
    modifies socket
    ensures var t := Preamble(old(socket.pending), seq(BufferSize, _ => 0), 0, parse);
            r == t.outcome && socket.pending == t.pending
  {
    var buf := new byte[BufferSize](_ => 0);
    assert buf[..] == seq(BufferSize, _ => 0);
    r := ReadInitialisation(socket, buf, parse);
  }

  /**
   * A successful preamble is an HTTP `CONNECT` whose hostname is the path the
   * parser reported for the buffer the reader filled, which starts with `C` or
   * `c`: the method is compared exactly, a lower-case `connect` is refused.
   */
  lemma {:induction false} PreambleConnect(pending: seq<Chunk>, buf: seq<byte>, progress: nat, parse: RequestParser)
    requires progress <= |buf|
    requires Preamble(pending, buf, progress, parse).outcome.Ok?
    ensures var t := Preamble(pending, buf, progress, parse);
            && t.outcome.value.Http?
            && |t.buf| > 0 && (t.buf[0] == UpperC || t.buf[0] == LowerC)
            && parse(t.buf) == Complete(Some("CONNECT"), Some(t.outcome.value.hostname))
    decreases |buf| - progress
  {
    var got := Receive(pending, |buf| - progress);
    var data := got.0.value;
    var filled := buf[..progress] + data + buf[progress + |data|..];
    assert filled[0] == filled[..progress + |data|][0];
    if parse(filled).Partial? {
      PreambleConnect(got.1, filled, progress + |data|, parse);
    }
  }

  /**
   * While the parser keeps asking for more bytes and the socket never fails,
   * the reader ends badly: at the end of the stream or when the buffer is full
   * (a read into no room returns nothing), or on a first byte that is not `C`/`c`.
   */
  lemma {:induction false} PreambleNeverCompletes(pending: seq<Chunk>, buf: seq<byte>, progress: nat, parse: RequestParser)
    requires progress <= |buf|
    requires forall b :: parse(b) == Partial
    requires forall i :: 0 <= i < |pending| ==> pending[i].Data?
    ensures var r := Preamble(pending, buf, progress, parse).outcome;
            r == Err(UnexpectedEof) || (r.Err? && r.error.Unrecognised?)
    decreases |buf| - progress
  {
    var got := Receive(pending, |buf| - progress);
    if got.0.Ok? && got.0.value != [] {
      var data := got.0.value;
      var filled := buf[..progress] + data + buf[progress + |data|..];
      PreambleNeverCompletes(got.1, filled, progress + |data|, parse);
    }
  }

  /**
   * A read that returns no bytes, at any point, ends the reader with an
   * unexpected end of file, leaving the buffer as it was; a close is consumed.
   */
  lemma PreambleEof(pending: seq<Chunk>, buf: seq<byte>, progress: nat, parse: RequestParser)
    requires progress <= |buf|
    requires progress == |buf| || pending == [] || pending[0] == Data([])
    ensures var t := Preamble(pending, buf, progress, parse);
            && t.outcome == Err(UnexpectedEof)
            && t.buf == buf
            && t.pending == if progress == |buf| || pending == [] then pending else pending[1..]
  {
    assert buf[..progress] + [] + buf[progress..] == buf;
  }

  /** A first byte other than `C` or `c` is refused at once, with the bytes read. */
  lemma FirstByteRejected(bytes: seq<byte>, rest: seq<Chunk>, buf: seq<byte>, parse: RequestParser)
    requires bytes != [] && |bytes| <= |buf|
    requires bytes[0] != UpperC && bytes[0] != LowerC
    ensures Preamble([Data(bytes)] + rest, buf, 0, parse).outcome == Err(Unrecognised(bytes))
  {
    assert ([Data(bytes)] + rest)[1..] == rest;
    var filled := buf[..0] + bytes + buf[|bytes|..];
    assert filled[..|bytes|] == bytes;
  }

  /**
   * A read at any point that brings bytes into a buffer starting with `C` or
   * `c`, which the parser then reads as a complete `CONNECT` with a path,
   * connects to that path, leaving the rest of the stream and the filled buffer.
   */
  lemma PreambleCompletes(pending: seq<Chunk>, buf: seq<byte>, progress: nat, parse: RequestParser, path: string)
    requires progress <= |buf|
    requires var got := Receive(pending, |buf| - progress);
             && got.0.Ok? && got.0.value != []
             && var f := Fill(buf, progress, got.0.value);
             && (f[0] == UpperC || f[0] == LowerC)
             && parse(f) == Complete(Some("CONNECT"), Some(path))
    ensures var got := Receive(pending, |buf| - progress);
            Preamble(pending, buf, progress, parse) == Done(Ok(Http(path)), got.1, Fill(buf, progress, got.0.value))
  {
    var got := Receive(pending, |buf| - progress);
    var f := Fill(buf, progress, got.0.value);
    assert f[..progress + |got.0.value|][0] == f[0];
  }

  /** A complete request, at any point, whose method is not exactly `CONNECT` is refused with that method. */
  lemma PreambleWrongMethod(pending: seq<Chunk>, buf: seq<byte>, progress: nat, parse: RequestParser,
                            requestMethod: Option<string>, path: Option<string>)
    requires progress <= |buf|
    requires var got := Receive(pending, |buf| - progress);
             && got.0.Ok? && got.0.value != []
             && var f := Fill(buf, progress, got.0.value);
             && (f[0] == UpperC || f[0] == LowerC)
             && parse(f) == Complete(requestMethod, path)
    requires requestMethod != Some("CONNECT")
    ensures var got := Receive(pending, |buf| - progress);
            Preamble(pending, buf, progress, parse)
              == Done(Err(InvalidMethod(requestMethod)), got.1, Fill(buf, progress, got.0.value))
  {
    var got := Receive(pending, |buf| - progress);
    var f := Fill(buf, progress, got.0.value);
    assert f[..progress + |got.0.value|][0] == f[0];
  }

  /** A complete `CONNECT`, at any point, that has no path is refused. */
  lemma PreambleNoPath(pending: seq<Chunk>, buf: seq<byte>, progress: nat, parse: RequestParser)
    requires progress <= |buf|
    requires var got := Receive(pending, |buf| - progress);
             && got.0.Ok? && got.0.value != []
             && var f := Fill(buf, progress, got.0.value);
             && (f[0] == UpperC || f[0] == LowerC)
             && parse(f) == Complete(Some("CONNECT"), None)
    ensures var got := Receive(pending, |buf| - progress);
            Preamble(pending, buf, progress, parse) == Done(Err(NoPath), got.1, Fill(buf, progress, got.0.value))
  {
    var got := Receive(pending, |buf| - progress);
    var f := Fill(buf, progress, got.0.value);
    assert f[..progress + |got.0.value|][0] == f[0];
  }

  /**
   * A partial parse, at any point, reads on: the outcome is that of the
   * reader started again from the filled buffer with the bytes read added to
   * `progress`, on the rest of the stream.
   */
  lemma PreamblePartial(pending: seq<Chunk>, buf: seq<byte>, progress: nat, parse: RequestParser)
    requires progress <= |buf|
    requires var got := Receive(pending, |buf| - progress);
             && got.0.Ok? && got.0.value != []
             && var f := Fill(buf, progress, got.0.value);
             && (f[0] == UpperC || f[0] == LowerC)
             && parse(f) == Partial
    ensures var got := Receive(pending, |buf| - progress);
            && progress + |got.0.value| <= |buf|
            && Preamble(pending, buf, progress, parse)
                 == Preamble(got.1, Fill(buf, progress, got.0.value), progress + |got.0.value|, parse)
  {
    var got := Receive(pending, |buf| - progress);
    TurnPartial(pending, buf, progress, parse);
    PreambleAgain(pending, buf, progress, parse);
  }

  lemma TurnPartial(pending: seq<Chunk>, buf: seq<byte>, progress: nat, parse: RequestParser)
    requires progress <= |buf|
    requires var got := Receive(pending, |buf| - progress);
             && got.0.Ok? && got.0.value != []
             && var f := Fill(buf, progress, got.0.value);
             && (f[0] == UpperC || f[0] == LowerC)
             && parse(f) == Partial
    ensures var got := Receive(pending, |buf| - progress);
            NextTurn(pending, buf, progress, parse)
              == Again(got.1, Fill(buf, progress, got.0.value), progress + |got.0.value|)
  {
    var got := Receive(pending, |buf| - progress);
    var f := Fill(buf, progress, got.0.value);
    assert f[..progress + |got.0.value|][0] == f[0];
  }

  /** `Preamble` after a turn that reads on is `Preamble` from that turn's state. */
  lemma PreambleAgain(pending: seq<Chunk>, buf: seq<byte>, progress: nat, parse: RequestParser)
    requires progress <= |buf|
    requires NextTurn(pending, buf, progress, parse).Again?
    ensures var t := NextTurn(pending, buf, progress, parse);
            Preamble(pending, buf, progress, parse) == Preamble(t.pending, t.buf, t.progress, parse)
  {
  }
}
