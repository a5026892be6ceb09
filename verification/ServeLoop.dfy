/** The SDKs' serve loops over a connection: read a frame, write its reply. */
module ServeLoop {
  import opened Framing
  import opened Messages
  import opened StreamReader
  import opened Options

  /** What a handler did with an invoke; panics and exceptions are failures. */
  datatype Outcome = Done(body: Bytes) | Failed(body: Bytes)

  /** A handler may depend on how many frames came before.  `refusal` and
      `tooLarge` are the bodies of the SDK's own error frames. */
  datatype Handler = Handler(run: (nat, Message) -> Outcome, refusal: Bytes, tooLarge: Bytes)

  function ReplyTo(h: Handler, k: nat, m: Message): Message {
    match m.kind
    case Invoke =>
      (match h.run(k, m)
       case Done(body) => Message(Result, m.id, body)
       case Failed(body) => Message(Error, m.id, body))
    case Shutdown => Message(ShutdownOk, m.id, [])
    case Init => Message(InitOk, m.id, [])
    case _ => Message(Error, m.id, h.refusal)
  }

  /** What the peer gets to see for one message. */
  datatype Said = Wrote(reply: Message) | Silence | Raised

  /** Go ignores the error of a reply that is too large. */
  function GoSays(c: Codec, h: Handler, k: nat, m: Message): Said {
    var reply := ReplyTo(h, k, m);
    if Fits(c, reply) then Wrote(reply) else Silence
  }

  /** Python turns a result that is too large into an error frame. */
  function PySays(c: Codec, h: Handler, k: nat, m: Message): Said {
    var reply := ReplyTo(h, k, m);
    var instead := Message(Error, m.id, h.tooLarge);
    if Fits(c, reply) then Wrote(reply)
    else if reply.kind.Result? && Fits(c, instead) then Wrote(instead)
    else Raised
  }

  function Says(python: bool, c: Codec, h: Handler, k: nat, m: Message): Said {
    if python then PySays(c, h, k, m) else GoSays(c, h, k, m)
  }

  /** How a loop ends. */
  datatype End = Clean | Problem

  /** What a loop makes of the payload of a frame. */
  datatype Input = Take(m: Message) | Quit(end: End)

  /** In Go null leaves the frame at its zero value; anything else that is no object
      is an error. */
  function GoTakes(c: Codec, p: Bytes): Input {
    match c.unmarshal(p)
    case Some(m) => Take(m)
    case None => if c.oddity(p).Null? then Take(Message(Unknown, "", [])) else Quit(Problem)
  }

  /** In Python null is None, which the loop takes for the end of the stream; other
      values that are no object raise. */
  function PyTakes(c: Codec, p: Bytes): Input {
    match c.unmarshal(p)
    case Some(m) => Take(m)
    case None => if c.oddity(p).Null? then Quit(Clean) else Quit(Problem)
  }

  function Takes(python: bool, c: Codec, p: Bytes): Input { if python then PyTakes(c, p) else GoTakes(c, p) }

  /** The whole conversation over the frames of a stream, the first of which is
      the k-th: it ends with a payload the loop cannot take, an exception or a shutdown. */
  function Talk(python: bool, c: Codec, h: Handler, k: nat, frames: seq<Bytes>): seq<Said>
    decreases |frames|
  {
    if frames == [] || Takes(python, c, frames[0]).Quit? then []
    else
      var m := Takes(python, c, frames[0]).m;
      var said := Says(python, c, h, k, m);
      if said.Raised? || m.kind.Shutdown? then [said] else [said] + Talk(python, c, h, k + 1, frames[1..])
  }

  /** The payloads of the frames that reach the peer. */
  function Written(c: Codec, said: seq<Said>): seq<Bytes> {
    if said == [] then []
    else (if said[0].Wrote? then [c.marshal(said[0].reply)] else []) + Written(c, said[1..])
  }

  function EndOf(python: bool, c: Codec, h: Handler, k: nat, s: Bytes): End
    decreases |s|
  {
    match Parse(s)
    case Frame(p, rest) =>
      (var t := Takes(python, c, p);
       if t.Quit? then t.end
       else if Says(python, c, h, k, t.m).Raised? then Problem
       else if t.m.kind.Shutdown? then Clean
       else EndOf(python, c, h, k + 1, rest))
    case _ =>
      (if python then if PyVerdict(s).Eof? then Clean else Problem
       else var f := GoVerdict(s); if f.IoEof? || (f.PayloadError? && f.eof) then Clean else Problem)
  }

  class Writer {
    var sent: Bytes

    constructor ()
      ensures sent == []
    {
      sent := [];
    }

    /** WriteFrame: all of the frame, or nothing and an error. */
    method WriteFrame(c: Codec, m: Message) returns (ok: bool)
      modifies this
      ensures ok == Fits(c, m)
      ensures sent == if ok then old(sent) + Wire(c, m) else old(sent)
    {
      var payload := c.marshal(m);
      ok := |payload| <= MAX_FRAME;
      if ok {
        sent := sent + BigEndian(|payload|);
        sent := sent + payload;
        assert sent == old(sent) + (BigEndian(|payload|) + payload);
      }
    }
  }

  lemma {:induction false} WrittenSnoc(c: Codec, said: seq<Said>, x: Said)
    ensures Written(c, said + [x]) == Written(c, said) + if x.Wrote? then [c.marshal(x.reply)] else []
  {
    if said != [] {
      assert (said + [x])[1..] == said[1..] + [x];
      WrittenSnoc(c, said[1..], x);
    }
  }

  /** A peer that has read everything reads one frame more. */
  lemma OneMore(c: Codec, sent: Bytes, said: seq<Said>, m: Message)
    requires Lawful(c) && Fits(c, m) && ParseAll(sent) == Parsed(Written(c, said), [])
    ensures ParseAll(sent + Wire(c, m)) == Parsed(Written(c, said + [Wrote(m)]), [])
  {
    ReadsBack(c, m);
    ParseInPieces(sent, Wire(c, m));
    WrittenSnoc(c, said, Wrote(m));
    TakeOne([], Wire(c, m));
    assert [] + Wire(c, m) == Wire(c, m);
    assert ParseAll([]) == Parsed([], []);
    assert ParseAll(Wire(c, m)) == Parsed([c.marshal(m)], []);
  }

  /** Writes one reply, and says what became of it. */
  method GoAnswer(c: Codec, h: Handler, k: nat, m: Message, w: Writer, ghost said: seq<Said>)
    requires Lawful(c) && ParseAll(w.sent) == Parsed(Written(c, said), [])
    modifies w
    ensures ParseAll(w.sent) == Parsed(Written(c, said + [Says(false, c, h, k, m)]), [])
    ensures Belongs(false, c, h, k, m, Says(false, c, h, k, m))
  {
    var reply := ReplyTo(h, k, m);
    ghost var before := w.sent;
    var ok := w.WriteFrame(c, reply);
    if ok { OneMore(c, before, said, reply); } else { WrittenSnoc(c, said, Silence); }
  }

  method PyAnswer(c: Codec, h: Handler, k: nat, m: Message, w: Writer, ghost said: seq<Said>) returns (ok: bool)
    requires Lawful(c) && ParseAll(w.sent) == Parsed(Written(c, said), [])
    modifies w
    ensures ParseAll(w.sent) == Parsed(Written(c, said + [Says(true, c, h, k, m)]), [])
    ensures Belongs(true, c, h, k, m, Says(true, c, h, k, m))
    ensures ok == !Says(true, c, h, k, m).Raised?
  {
    var reply := ReplyTo(h, k, m);
    ghost var before := w.sent;
    ok := w.WriteFrame(c, reply);
    if !ok && reply.kind.Result? {
      reply := Message(Error, m.id, h.tooLarge);
      ok := w.WriteFrame(c, reply);
    }
    if ok { OneMore(c, before, said, reply); } else { WrittenSnoc(c, said, Raised); }
  }

  /** The conversation, one frame of the stream at a time. */
  lemma NextFrame(python: bool, c: Codec, h: Handler, k: nat, s: Bytes)
    ensures !Parse(s).Frame? ==> Talk(python, c, h, k, ParseAll(s).frames) == []
    ensures Parse(s).Frame? ==>
      var t := Takes(python, c, Parse(s).payload);
      var rest := Talk(python, c, h, k + 1, ParseAll(Parse(s).rest).frames);
      Talk(python, c, h, k, ParseAll(s).frames) ==
        if t.Quit? then []
        else if Says(python, c, h, k, t.m).Raised? || t.m.kind.Shutdown? then [Says(python, c, h, k, t.m)]
        else [Says(python, c, h, k, t.m)] + rest
  {
    hide Says;
    if Parse(s).Frame? {
      TakeOne([], s);
      var p, tail := Parse(s).payload, ParseAll(Parse(s).rest).frames;
      hide Parse;
      assert ParseAll(s).frames == [p] + tail && ([p] + tail)[1..] == tail;
    }
  }

  /** The same, for a loop that has said something already. */
  lemma NextTurn(python: bool, c: Codec, h: Handler, k: nat, s: Bytes, said: seq<Said>)
    ensures var all := said + Talk(python, c, h, k, ParseAll(s).frames);
            if !Parse(s).Frame? || Takes(python, c, Parse(s).payload).Quit? then all == said
            else
              var m := Takes(python, c, Parse(s).payload).m;
              var x := Says(python, c, h, k, m);
              if x.Raised? || m.kind.Shutdown? then all == said + [x]
              else all == (said + [x]) + Talk(python, c, h, k + 1, ParseAll(Parse(s).rest).frames)
  {
    NextFrame(python, c, h, k, s);
    hide Says, ParseAll, Parse, Talk;
  }

  /** How a loop goes on from the front of the stream. */
  lemma EndTurn(python: bool, c: Codec, h: Handler, k: nat, s: Bytes)
    ensures EndOf(python, c, h, k, s) ==
      match Parse(s)
      case Frame(p, rest) =>
        (var t := Takes(python, c, p);
         if t.Quit? then t.end
         else if Says(python, c, h, k, t.m).Raised? then Problem
         else if t.m.kind.Shutdown? then Clean
         else EndOf(python, c, h, k + 1, rest))
      case _ =>
        (if python then if PyVerdict(s).Eof? then Clean else Problem
         else var f := GoVerdict(s); if f.IoEof? || (f.PayloadError? && f.eof) then Clean else Problem)
  {
  }

  lemma GoNeverRaises(c: Codec, h: Handler, k: nat, m: Message)
    ensures !Says(false, c, h, k, m).Raised?
  {
  }

  /** Go Serve: the peer reads exactly the replies of the conversation, whatever
      pieces the input came in, and the loop ends as stated. */
  method GoServe(c: Codec, h: Handler, sock: Socket, w: Writer) returns (end: End)
    requires Lawful(c) && w.sent == []
    modifies sock, w
    ensures var frames := ParseAll(old(sock.stream)).frames;
      var said := Talk(false, c, h, 0, frames);
      ParseAll(w.sent) == Parsed(Written(c, said), []) && IsConversation(false, c, h, 0, frames, said)
    ensures end == EndOf(false, c, h, 0, old(sock.stream))
    ensures var all := ParseAll(old(sock.stream));
      var said := Talk(false, c, h, 0, all.frames);
      |said| <= |all.frames| && (end.Clean? <==> EndsClean(false, c, all, said))
  {
    ghost var said: seq<Said> := [];
    ghost var all := Talk(false, c, h, 0, ParseAll(sock.stream).frames);
    TalkIsConversation(false, c, h, 0, ParseAll(sock.stream).frames);
    EndMeans(false, c, h, 0, sock.stream);
    var k := 0;
    assert ParseAll([]) == Parsed([], []) && Written(c, []) == [];
    assert [] + all == all;
    hide Talk, Says, ParseAll, Written, IsConversation, EndsClean, Belongs, EndOf;
    while true
      invariant ParseAll(w.sent) == Parsed(Written(c, said), [])
      invariant all == said + Talk(false, c, h, k, ParseAll(sock.stream).frames)
      invariant EndOf(false, c, h, k, sock.stream) == EndOf(false, c, h, 0, old(sock.stream))
      decreases |sock.stream|
    {
      ghost var s := sock.stream;
      var f := GoReadFrame(sock);
      NextTurn(false, c, h, k, s, said);
      EndTurn(false, c, h, k, s);
      assert if f.GoPayload? then Parse(s) == Frame(f.p, sock.stream) else !Parse(s).Frame?;
      hide Parse, GoVerdict, Unread;
      if !f.GoPayload? {
        return if f.IoEof? || (f.PayloadError? && f.eof) then Clean else Problem;
      }
      var t := GoTakes(c, f.p);
      if t.Quit? { return t.end; }
      GoAnswer(c, h, k, t.m, w, said);
      GoNeverRaises(c, h, k, t.m);
      said := said + [Says(false, c, h, k, t.m)];
      if t.m.kind.Shutdown? { return Clean; }
      k := k + 1;
    }
  }

  /** Python _serve. */
  method PyServe(c: Codec, h: Handler, sock: Socket, w: Writer) returns (end: End)
    requires Lawful(c) && w.sent == []
    modifies sock, w
    ensures var frames := ParseAll(old(sock.stream)).frames;
      var said := Talk(true, c, h, 0, frames);
      ParseAll(w.sent) == Parsed(Written(c, said), []) && IsConversation(true, c, h, 0, frames, said)
    ensures end == EndOf(true, c, h, 0, old(sock.stream))
    ensures var all := ParseAll(old(sock.stream));
      var said := Talk(true, c, h, 0, all.frames);
      |said| <= |all.frames| && (end.Clean? <==> EndsClean(true, c, all, said))
  {
    ghost var said: seq<Said> := [];
    ghost var all := Talk(true, c, h, 0, ParseAll(sock.stream).frames);
    TalkIsConversation(true, c, h, 0, ParseAll(sock.stream).frames);
    EndMeans(true, c, h, 0, sock.stream);
    var k := 0;
    assert ParseAll([]) == Parsed([], []) && Written(c, []) == [];
    assert [] + all == all;
    hide Talk, Says, ParseAll, Written, IsConversation, EndsClean, Belongs, EndOf;
    while true
      invariant ParseAll(w.sent) == Parsed(Written(c, said), [])
      invariant all == said + Talk(true, c, h, k, ParseAll(sock.stream).frames)
      invariant EndOf(true, c, h, k, sock.stream) == EndOf(true, c, h, 0, old(sock.stream))
      decreases |sock.stream|
    {
      ghost var s := sock.stream;
      var f := PyReadFrame(sock);
      NextTurn(true, c, h, k, s, said);
      EndTurn(true, c, h, k, s);
      assert if f.Payload? then Parse(s) == Frame(f.p, sock.stream) else !Parse(s).Frame?;
      hide Parse, PyVerdict, Unread;
      if !f.Payload? {
        return if f.Eof? then Clean else Problem;
      }
      var t := PyTakes(c, f.p);
      if t.Quit? { return t.end; }
      var ok := PyAnswer(c, h, k, t.m, w, said);
      said := said + [Says(true, c, h, k, t.m)];
      if !ok { return Problem; }
      if t.m.kind.Shutdown? { return Clean; }
      k := k + 1;
    }
  }

  // --- What the peer can rely on ---

  /** The loop takes payload p for message m; null is an empty message in Go. */
  predicate Reads(python: bool, c: Codec, p: Bytes, m: Message) {
    || c.unmarshal(p) == Some(m)
    || (!python && c.unmarshal(p) == None && c.oddity(p).Null? && m == Message(Unknown, "", []))
  }

  /** A reply that fits is written; otherwise Go is silent and Python raises. */
  predicate Sends(python: bool, c: Codec, reply: Message, said: Said) {
    said == if |c.marshal(reply)| <= MAX_FRAME then Wrote(reply) else if python then Raised else Silence
  }

  /** What belongs to the k-th message: a result with the handler's body if it is done,
      an error with its body if it fails, and the SDK's own answers to the rest.
      Only Python replaces a result that is too large. */
  predicate Belongs(python: bool, c: Codec, h: Handler, k: nat, m: Message, said: Said) {
    if m.kind.Invoke? then
      match h.run(k, m)
      case Failed(body) => Sends(python, c, Message(Error, m.id, body), said)
      case Done(body) =>
        if python && |c.marshal(Message(Result, m.id, body))| > MAX_FRAME
        then Sends(python, c, Message(Error, m.id, h.tooLarge), said)
        else Sends(python, c, Message(Result, m.id, body), said)
    else if m.kind.Shutdown? then Sends(python, c, Message(ShutdownOk, m.id, []), said)
    else if m.kind.Init? then Sends(python, c, Message(InitOk, m.id, []), said)
    else Sends(python, c, Message(Error, m.id, h.refusal), said)
  }

  /** After this the loop reads no further frame. */
  predicate IsLast(python: bool, c: Codec, p: Bytes, said: Said) {
    said.Raised? || (c.unmarshal(p).Some? && c.unmarshal(p).value.kind.Shutdown?)
  }

  /** What is said belongs to the message in the payload. */
  ghost predicate Right(python: bool, c: Codec, h: Handler, k: nat, p: Bytes, said: Said) {
    exists m :: Reads(python, c, p, m) && Belongs(python, c, h, k, m, said)
  }

  ghost predicate Unreadable(python: bool, c: Codec, p: Bytes) { forall m :: !Reads(python, c, p, m) }

  /** A conversation by position: what is said about each frame belongs to it, and it
      stops after an exception or a shutdown, before a payload the loop cannot take,
      or at the end of the frames, and nowhere else. */
  ghost predicate IsConversation(python: bool, c: Codec, h: Handler, k: nat, frames: seq<Bytes>, said: seq<Said>) {
    && |said| <= |frames|
    && (forall i :: 0 <= i < |said| ==> Right(python, c, h, k + i, frames[i], said[i]))
    && (forall i :: 0 <= i < |said| - 1 ==> !IsLast(python, c, frames[i], said[i]))
    && (|said| < |frames| ==>
          || (said != [] && IsLast(python, c, frames[|said| - 1], said[|said| - 1]))
          || Unreadable(python, c, frames[|said|]))
  }

  lemma OneAnswer(python: bool, c: Codec, h: Handler, k: nat, p: Bytes)
    ensures Takes(python, c, p).Quit? <==> Unreadable(python, c, p)
    ensures Takes(python, c, p).Take? ==>
      var m := Takes(python, c, p).m;
      && Reads(python, c, p, m) && Belongs(python, c, h, k, m, Says(python, c, h, k, m))
      && Right(python, c, h, k, p, Says(python, c, h, k, m))
      && (m.kind.Shutdown? <==> c.unmarshal(p).Some? && c.unmarshal(p).value.kind.Shutdown?)
  {
    if Takes(python, c, p).Take? { assert Reads(python, c, p, Takes(python, c, p).m); }
  }

  lemma {:induction false} TalkIsConversation(python: bool, c: Codec, h: Handler, k: nat, frames: seq<Bytes>)
    ensures IsConversation(python, c, h, k, frames, Talk(python, c, h, k, frames))
    decreases |frames|
  {
    if frames != [] {
      OneAnswer(python, c, h, k, frames[0]);
      TalkIsConversation(python, c, h, k + 1, frames[1..]);
      hide Takes, Says, Reads, Belongs, Right, Unreadable, IsConversation;
      var more := Talk(python, c, h, k + 1, frames[1..]);
      if Takes(python, c, frames[0]).Quit? {
        NoConversation(python, c, h, k, frames);
      } else {
        var x := Says(python, c, h, k, Takes(python, c, frames[0]).m);
        if IsLast(python, c, frames[0], x) {
          ShortConversation(python, c, h, k, frames, x);
        } else {
          ConversationGrows(python, c, h, k, frames, x, more);
        }
      }
    }
  }

  lemma NoConversation(python: bool, c: Codec, h: Handler, k: nat, frames: seq<Bytes>)
    requires frames != [] && Unreadable(python, c, frames[0])
    ensures IsConversation(python, c, h, k, frames, [])
  {
    hide Unreadable;
  }

  lemma ShortConversation(python: bool, c: Codec, h: Handler, k: nat, frames: seq<Bytes>, x: Said)
    requires frames != [] && Right(python, c, h, k, frames[0], x) && IsLast(python, c, frames[0], x)
    ensures IsConversation(python, c, h, k, frames, [x])
  {
    hide Right, IsLast;
  }

  lemma ConversationGrows(python: bool, c: Codec, h: Handler, k: nat, frames: seq<Bytes>, x: Said, more: seq<Said>)
    requires frames != [] && IsConversation(python, c, h, k + 1, frames[1..], more)
    requires Right(python, c, h, k, frames[0], x) && !IsLast(python, c, frames[0], x)
    ensures IsConversation(python, c, h, k, frames, [x] + more)
  {
    hide Right, IsLast, Unreadable;
    var said, tail := [x] + more, frames[1..];
    forall i | 0 <= i < |said| ensures Right(python, c, h, k + i, frames[i], said[i]) {
      if i > 0 {
        assert tail[i - 1] == frames[i] && more[i - 1] == said[i];
        assert Right(python, c, h, k + 1 + (i - 1), tail[i - 1], more[i - 1]);
      }
    }
    forall i | 0 <= i < |said| - 1 ensures !IsLast(python, c, frames[i], said[i]) {
      if i > 0 { assert tail[i - 1] == frames[i] && more[i - 1] == said[i]; }
    }
    if more != [] { assert tail[|more| - 1] == frames[|said| - 1] && more[|more| - 1] == said[|said| - 1]; }
    if |more| < |tail| { assert tail[|more|] == frames[|said|]; }
  }

  lemma OneRight(python: bool, c: Codec, h: Handler, k: nat, p: Bytes, x: Said, y: Said)
    requires Right(python, c, h, k, p, x) && Right(python, c, h, k, p, y)
    ensures x == y
  {
    var m :| Reads(python, c, p, m) && Belongs(python, c, h, k, m, x);
    var n :| Reads(python, c, p, n) && Belongs(python, c, h, k, n, y);
  }

  lemma NoLonger(python: bool, c: Codec, h: Handler, k: nat, frames: seq<Bytes>, a: seq<Said>, b: seq<Said>)
    requires IsConversation(python, c, h, k, frames, a) && IsConversation(python, c, h, k, frames, b)
    ensures |b| <= |a|
    ensures forall i :: 0 <= i < |b| ==> a[i] == b[i]
  {
    forall i | 0 <= i < |a| && i < |b| ensures a[i] == b[i] {
      hide IsLast, Right, Unreadable;
      OneRight(python, c, h, k + i, frames[i], a[i], b[i]);
    }
    hide IsLast, Reads, Belongs;
    assert |a| < |b| ==> Right(python, c, h, k + |a|, frames[|a|], b[|a|]);
  }

  /** Handler and frames determine the conversation. */
  lemma ConversationIsUnique(python: bool, c: Codec, h: Handler, k: nat, frames: seq<Bytes>, a: seq<Said>, b: seq<Said>)
    requires IsConversation(python, c, h, k, frames, a) && IsConversation(python, c, h, k, frames, b)
    ensures a == b
  {
    NoLonger(python, c, h, k, frames, a, b);
    NoLonger(python, c, h, k, frames, b, a);
  }

  /** Whether a loop ends cleanly, by what came last: an exception is a problem and a
      shutdown a clean end; a payload the loop cannot take is a problem, but null in
      Python is not; and of the rest of the stream Python minds what is more than part
      of a header, Go all but nothing at all or a good header alone. */
  predicate EndsClean(python: bool, c: Codec, all: Parsed, said: seq<Said>)
    requires |said| <= |all.frames|
  {
    var n := |said|;
    if n > 0 && said[n - 1].Raised? then false
    else if n > 0 && IsLast(python, c, all.frames[n - 1], said[n - 1]) then true
    else if n < |all.frames| then python && c.unmarshal(all.frames[n]) == None && c.oddity(all.frames[n]).Null?
    else if python then |all.rest| < HEADER_SIZE
    else all.rest == [] || (|all.rest| == HEADER_SIZE && Parse(all.rest).ShortPayload?)
  }

  lemma EndsLater(python: bool, c: Codec, p: Bytes, x: Said, tail: Parsed, more: seq<Said>)
    requires |more| <= |tail.frames| && !IsLast(python, c, p, x)
    ensures EndsClean(python, c, Parsed([p] + tail.frames, tail.rest), [x] + more) <==> EndsClean(python, c, tail, more)
  {
    hide Parse;
    var all, said, n := Parsed([p] + tail.frames, tail.rest), [x] + more, |more|;
    if n > 0 { assert all.frames[n] == tail.frames[n - 1] && said[n] == more[n - 1]; }
    if n < |tail.frames| { assert all.frames[n + 1] == tail.frames[n]; }
  }

  lemma EndsNow(python: bool, c: Codec, h: Handler, k: nat, s: Bytes)
    requires !Parse(s).Frame?
    ensures EndOf(python, c, h, k, s).Clean? <==> EndsClean(python, c, Parsed([], s), [])
  {
  }

  lemma EndsHere(python: bool, c: Codec, h: Handler, k: nat, s: Bytes)
    requires Parse(s).Frame?
    ensures var t, all := Takes(python, c, Parse(s).payload), ParseAll(s);
      && all.frames != [] && all.frames[0] == Parse(s).payload
      && (t.Quit? ==> (EndOf(python, c, h, k, s).Clean? <==> EndsClean(python, c, all, [])))
      && (t.Take? ==>
            var x, rest := Says(python, c, h, k, t.m), Parse(s).rest;
            if x.Raised? || t.m.kind.Shutdown?
            then EndOf(python, c, h, k, s).Clean? <==> EndsClean(python, c, all, [x])
            else !IsLast(python, c, all.frames[0], x) && EndOf(python, c, h, k, s) == EndOf(python, c, h, k + 1, rest))
  {
    OneAnswer(python, c, h, k, Parse(s).payload);
    TakeOne([], s);
    hide Parse, Belongs, Says, Right, Unreadable;
  }

  /** How a loop ends. */
  lemma {:induction false} EndMeans(python: bool, c: Codec, h: Handler, k: nat, s: Bytes)
    ensures var all, said := ParseAll(s), Talk(python, c, h, k, ParseAll(s).frames);
      |said| <= |all.frames| && (EndOf(python, c, h, k, s).Clean? <==> EndsClean(python, c, all, said))
    decreases |s|
  {
    NextFrame(python, c, h, k, s);
    if Parse(s).Frame? {
      var p, rest := Parse(s).payload, Parse(s).rest;
      assert |rest| < |s|;
      EndsHere(python, c, h, k, s);
      TakeOne([], s);
      assert ParseAll(s) == Parsed([p] + ParseAll(rest).frames, ParseAll(rest).rest);
      hide Parse, ParseAll, Talk, Takes, Says, EndOf, EndsClean, IsLast;
      var t := Takes(python, c, p);
      if t.Take? && !Says(python, c, h, k, t.m).Raised? && !t.m.kind.Shutdown? {
        EndMeans(python, c, h, k + 1, rest);
        var more := Talk(python, c, h, k + 1, ParseAll(rest).frames);
        EndsLater(python, c, p, Says(python, c, h, k, t.m), ParseAll(rest), more);
      }
    } else {
      assert ParseAll(s) == Parsed([], s);
      EndsNow(python, c, h, k, s);
    }
  }

  /** The i-th thing said is about the i-th frame, and echoes its id. */
  lemma {:induction false} SaidAboutFrame(python: bool, c: Codec, h: Handler, k: nat, frames: seq<Bytes>, i: nat)
    requires i < |Talk(python, c, h, k, frames)|
    ensures i < |frames| && Takes(python, c, frames[i]).Take?
    ensures var said, m := Talk(python, c, h, k, frames)[i], Takes(python, c, frames[i]).m;
            && said == Says(python, c, h, k + i, m)
            && (said.Wrote? ==> Answers(m, said.reply))
            && (said.Silence? ==> !python && !Fits(c, ReplyTo(h, k + i, m)))
            && (said.Raised? ==> python && i == |Talk(python, c, h, k, frames)| - 1)
    decreases i
  {
    if i > 0 {
      SaidAboutFrame(python, c, h, k + 1, frames[1..], i - 1);
    }
  }

  lemma {:induction false} WrittenAt(c: Codec, said: seq<Said>, i: nat)
    requires i < |said| && forall j :: 0 <= j <= i ==> said[j].Wrote?
    ensures i < |Written(c, said)| && Written(c, said)[i] == c.marshal(said[i].reply)
  {
    if i > 0 {
      assert forall j :: 0 <= j <= i - 1 ==> said[1..][j] == said[j + 1];
      WrittenAt(c, said[1..], i - 1);
    }
  }

  lemma {:induction false} WrittenCount(c: Codec, said: seq<Said>)
    ensures |Written(c, said)| <= |said|
  {
    if said != [] { WrittenCount(c, said[1..]); }
  }

  /** A peer that sends frames and reads replies in order, without looking at ids,
      pairs them rightly: the Python SDK always answers frame i with reply i, and
      the Go SDK does as long as every reply up to there fits. */
  lemma RepliesLineUp(python: bool, c: Codec, h: Handler, frames: seq<Bytes>, i: nat)
    requires Lawful(c) && i < |Written(c, Talk(python, c, h, 0, frames))|
    requires !python ==> forall j, m :: 0 <= j <= i && j < |frames| && Takes(python, c, frames[j]) == Take(m) ==>
        Fits(c, ReplyTo(h, j, m))
    ensures i < |frames| && Takes(python, c, frames[i]).Take?
    ensures var reply := c.unmarshal(Written(c, Talk(python, c, h, 0, frames))[i]);
            && reply.Some? && Answers(Takes(python, c, frames[i]).m, reply.value)
            && Belongs(python, c, h, i, Takes(python, c, frames[i]).m, Wrote(reply.value))
  {
    var said := Talk(python, c, h, 0, frames);
    hide Says, Belongs, Talk, Reads, Right, Unreadable, Written, ReplyTo, Takes;
    WrittenCount(c, said);
    forall j | 0 <= j <= i && j < |said| - 1 ensures said[j].Wrote? {
      SaidAboutFrame(python, c, h, 0, frames, j);
      assert Takes(python, c, frames[j]) == Take(Takes(python, c, frames[j]).m);
    }
    SaidAboutFrame(python, c, h, 0, frames, i);
    if said[i].Raised? { RaisedLast(c, said); }
    assert Takes(python, c, frames[i]) == Take(Takes(python, c, frames[i]).m);
    WrittenAt(c, said, i);
    OneAnswer(python, c, h, i, frames[i]);
  }

  lemma {:induction false} RaisedLast(c: Codec, said: seq<Said>)
    requires |said| > 0 && !said[|said| - 1].Wrote?
    ensures |Written(c, said)| < |said|
  {
    if |said| > 1 { RaisedLast(c, said[1..]); }
  }

  /** A stream that is cut inside a frame is a loss that neither loop always
      notices: Python takes a partial header for a clean end, Go a header
      without any payload. */
  lemma WhoNoticesTheCut(c: Codec, h: Handler, m: Message, n: nat)
    requires Lawful(c) && Fits(c, m) && 0 < n < |Wire(c, m)|
    ensures EndOf(true, c, h, 0, Wire(c, m)[..n]).Clean? <==> n < HEADER_SIZE
    ensures EndOf(false, c, h, 0, Wire(c, m)[..n]).Clean? <==> n == HEADER_SIZE
  {
    assert Wire(c, m)[..n] + Wire(c, m)[n..] == Wire(c, m);
    PartIsShort(c, m, Wire(c, m)[..n], Wire(c, m)[n..]);
  }
}
