/** The blocking readers: Python's _read_exact loop and Go's io.ReadFull. */
module StreamReader {
  import opened Framing
  import opened Options

  /** A connection: the bytes that will still arrive before the peer closes, and
      how many of them the next reads return at once. */
  class Socket {
    var stream: Bytes
    const cut: nat -> nat
    var turn: nat

    constructor (stream: Bytes, cut: nat -> nat)
      ensures this.stream == stream && this.cut == cut
    {
      this.stream, this.cut, turn := stream, cut, 0;
    }

    /** At least one byte and at most n, unless the stream has ended. */
    method Recv(n: nat) returns (chunk: Bytes)
      requires n > 0
      modifies this
      ensures |chunk| <= n && old(stream) == chunk + stream
      ensures chunk == [] <==> old(stream) == []
    {
      var most := if n < |stream| then n else |stream|;
      if most == 0 { return []; }
      var k := 1 + cut(turn) % most;
      chunk, stream, turn := stream[..k], stream[k..], turn + 1;
    }
  }

  /** Reads exactly n bytes however they are delivered, or reports the end of the
      stream; the bytes of an incomplete read are gone. */
  method ReadExact(sock: Socket, n: nat) returns (r: Option<Bytes>)
    modifies sock
    ensures if |old(sock.stream)| >= n
      then r == Some(old(sock.stream)[..n]) && sock.stream == old(sock.stream)[n..]
      else r == None && sock.stream == []
  {
    var buf: Bytes := [];
    while |buf| < n
      invariant |buf| <= n && old(sock.stream) == buf + sock.stream
      decreases n - |buf|
    {
      var chunk := sock.Recv(n - |buf|);
      if chunk == [] {
        return None;
      }
      buf := buf + chunk;
    }
    assert old(sock.stream)[..n] == buf;
    return Some(buf);
  }

  datatype PyFrame = Payload(p: Bytes) | Eof | InvalidLength(n: nat) | ShortRead

  /** The unread suffix after one attempt to read a frame from a blocking stream. */
  function Unread(s: Bytes): Bytes {
    match Parse(s)
    case Frame(_, rest) => rest
    case BadLength(_) => s[HEADER_SIZE..]
    case _ => []
  }

  function PyVerdict(s: Bytes): PyFrame {
    match Parse(s)
    case Frame(p, _) => Payload(p)
    case BadLength(n) => InvalidLength(n)
    case ShortHeader => Eof
    case ShortPayload => ShortRead
  }

  /** Python _read_frame.  A stream that ends inside the header counts as a
      clean end. */
  method PyReadFrame(sock: Socket) returns (r: PyFrame)
    modifies sock
    ensures r == PyVerdict(old(sock.stream)) && sock.stream == Unread(old(sock.stream))
  {
    ghost var s := sock.stream;
    var hdr := ReadExact(sock, HEADER_SIZE);
    if hdr.None? { return Eof; }
    var n := ReadUInt32(hdr.value);
    if n == 0 || n > MAX_FRAME { return InvalidLength(n); }
    var payload := ReadExact(sock, n);
    if payload.None? { return ShortRead; }
    assert s[HEADER_SIZE..][..n] == s[HEADER_SIZE..HEADER_SIZE + n] && s[HEADER_SIZE..][n..] == s[HEADER_SIZE + n..];
    return Payload(payload.value);
  }

  datatype GoFrame =
    | GoPayload(p: Bytes)
    | IoEof
    | UnexpectedEof
    | ZeroLength
    | TooLarge(n: nat)
    | PayloadError(eof: bool)

  function GoVerdict(s: Bytes): GoFrame {
    match Parse(s)
    case Frame(p, _) => GoPayload(p)
    case BadLength(n) => if n == 0 then ZeroLength else TooLarge(n)
    case ShortHeader => if s == [] then IoEof else UnexpectedEof
    case ShortPayload => PayloadError(|s| == HEADER_SIZE)
  }

  /** io.ReadFull: tells an empty stream from one that ends early. */
  method ReadFull(sock: Socket, n: nat) returns (r: Option<Bytes>, got: nat)
    modifies sock
    ensures if |old(sock.stream)| >= n
      then r == Some(old(sock.stream)[..n]) && sock.stream == old(sock.stream)[n..]
      else r == None && sock.stream == [] && got == |old(sock.stream)|
  {
    var buf: Bytes := [];
    while |buf| < n
      invariant |buf| <= n && old(sock.stream) == buf + sock.stream
      decreases n - |buf|
    {
      var chunk := sock.Recv(n - |buf|);
      if chunk == [] {
        return None, |buf|;
      }
      buf := buf + chunk;
    }
    assert old(sock.stream)[..n] == buf;
    return Some(buf), n;
  }

  /** Go wire.ReadFrame.  io.EOF itself means a close between frames; a close just
      after a header wraps io.EOF too, which errors.Is cannot tell apart. */
  method GoReadFrame(sock: Socket) returns (r: GoFrame)
    modifies sock
    ensures r == GoVerdict(old(sock.stream)) && sock.stream == Unread(old(sock.stream))
  {
    ghost var s := sock.stream;
    var hdr, got := ReadFull(sock, HEADER_SIZE);
    if hdr.None? { return if got == 0 then IoEof else UnexpectedEof; }
    var n := ReadUInt32(hdr.value);
    if n == 0 { return ZeroLength; }
    if n > MAX_FRAME { return TooLarge(n); }
    var payload;
    payload, got := ReadFull(sock, n);
    if payload.None? { return PayloadError(got == 0); }
    assert s[HEADER_SIZE..][..n] == s[HEADER_SIZE..HEADER_SIZE + n] && s[HEADER_SIZE..][n..] == s[HEADER_SIZE + n..];
    return GoPayload(payload.value);
  }

  /** Reading until something other than a frame turns up, in Python. */
  method PyReadAll(sock: Socket) returns (frames: seq<Bytes>, last: PyFrame)
    modifies sock
    ensures frames == ParseAll(old(sock.stream)).frames && !last.Payload?
    ensures last == PyVerdict(ParseAll(old(sock.stream)).rest)
  {
    frames := [];
    while true
      invariant frames + ParseAll(sock.stream).frames == ParseAll(old(sock.stream)).frames
      invariant ParseAll(sock.stream).rest == ParseAll(old(sock.stream)).rest
      decreases |sock.stream|
    {
      ghost var s := sock.stream;
      last := PyReadFrame(sock);
      if !last.Payload? { return; }
      TakeOne(frames, s);
      frames := frames + [last.p];
    }
  }

  /** And in Go. */
  method GoReadAll(sock: Socket) returns (frames: seq<Bytes>, last: GoFrame)
    modifies sock
    ensures frames == ParseAll(old(sock.stream)).frames && !last.GoPayload?
    ensures last == GoVerdict(ParseAll(old(sock.stream)).rest)
  {
    frames := [];
    while true
      invariant frames + ParseAll(sock.stream).frames == ParseAll(old(sock.stream)).frames
      invariant ParseAll(sock.stream).rest == ParseAll(old(sock.stream)).rest
      decreases |sock.stream|
    {
      ghost var s := sock.stream;
      last := GoReadFrame(sock);
      if !last.GoPayload? { return; }
      TakeOne(frames, s);
      frames := frames + [last.p];
    }
  }
}
