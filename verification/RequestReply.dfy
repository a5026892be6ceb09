/** One connection between the gateway and a function process: a caller that has
    the instance mutex writes a frame and reads a frame; ids are never compared.
    Bytes move in pieces of any size, and the process can die at any moment. */
module RequestReply {
  import opened Framing
  import opened Messages
  import opened Options

  datatype Language = Go | Python | Node

  /** The SDK's loop.  `mustFail`: the first reply did not fit, an error is due. */
  datatype Server =
    | Reading
    | Handling(m: Message, mustFail: bool)
    | Writing(reply: Message, left: Bytes)
    | Left                             // answered a shutdown and returned
    | Dead

  /** Inside Instance.Invoke, under the instance mutex. */
  datatype Client = Idle | Sending(m: Message, left: Bytes) | Waiting(m: Message)

  /** Inside Instance.Close, which does not take the mutex. */
  datatype Closer = Open | Closing(left: Bytes) | Draining | Drained | Killed

  datatype Exchange = Exchange(asked: Message, reply: Option<Message>)

  datatype Conn = Conn(
    language: Language,
    toSdk: Bytes,
    toHost: Bytes,
    server: Server,
    client: Client,
    closer: Closer,
    posted: seq<Message>,              // history: messages written to the process
    served: seq<Exchange>,             // history: messages it handled, and its reply if it wrote one
    heard: seq<Exchange>)              // history: replies read by a caller or by Close

  datatype Step =
    | Call(m: Message)
    | Send(n: nat)
    | SendFails
    | Receive
    | ReceiveFails
    | Read
    | Reply(reply: Message)
    | Write(n: nat)
    | Crash
    | CloseStart
    | CloseSend(n: nat)
    | CloseDrain
    | CloseKill

  function Goodbye(): Message { Message(Shutdown, "sd", []) }

  predicate Gone(s: Conn) { s.server.Dead? || s.server.Left? }

  /** Everything that can happen when nobody holds back. */
  predicate Enabled(c: Codec, s: Conn, a: Step) {
    match a
    case Call(m) => s.client.Idle? && m.kind.Invoke?
    case Send(n) => s.client.Sending? && 0 < n <= |s.client.left|
    case SendFails => s.client.Sending? && Gone(s)
    case Receive => s.client.Waiting? && Parse(s.toHost).Frame?
    case ReceiveFails => s.client.Waiting? && Gone(s) && !Parse(s.toHost).Frame?
    case Read => s.server.Reading? && Parse(s.toSdk).Frame?
    case Reply(reply) => s.server.Handling? && Answers(s.server.m, reply) && (s.server.mustFail ==> reply.kind.Error?)
    case Write(n) => s.server.Writing? && 0 < n <= |s.server.left|
    case Crash => !Gone(s)
    case CloseStart => s.closer.Open?
    case CloseSend(n) => s.closer.Closing? && 0 < n <= |s.closer.left|
    case CloseDrain => s.closer.Draining? && Parse(s.toHost).Frame?
    case CloseKill => s.closer.Draining? || s.closer.Drained?
  }

  /** What the reaper keeps to: it closes an instance only while it holds its
      busy lock, and the instance is out of the pool by then. */
  predicate Orderly(c: Codec, s: Conn, a: Step) {
    && Enabled(c, s, a)
    && (a.CloseStart? ==> s.client.Idle?)
    && (a.Call? ==> s.closer.Open?)
  }

  /** A message was read from the process; None stands for bad JSON. */
  function Heard(heard: seq<Exchange>, asked: Message, m: Option<Message>): seq<Exchange> {
    if m.Some? then heard + [Exchange(asked, m)] else heard
  }

  function AfterReply(reply: Message): Server { if reply.kind.ShutdownOk? then Left else Reading }

  /** The SDKs differ when a reply is too large: Go drops the write error; the others
      fall back to an error reply.  If that fails as well, Python gives up, and Node
      rejects the promise of `start`, which ends the process only if the script does
      not catch it: until then the loop goes on reading, after a shutdown too. */
  function Oversized(s: Conn, reply: Message): Conn
    requires s.server.Handling?
  {
    var m := s.server.m;
    if s.language.Go? then s.(server := AfterReply(reply), served := s.served + [Exchange(m, None)])
    else if reply.kind.Result? then s.(server := Handling(m, true))
    else if s.language.Node? then s.(server := Reading, served := s.served + [Exchange(m, None)])
    else s.(server := Dead)
  }

  function Apply(c: Codec, s: Conn, a: Step): Conn
    requires Enabled(c, s, a)
  {
    match a
    case Call(m) =>
      if Fits(c, m) then s.(client := Sending(m, Wire(c, m)), posted := s.posted + [m]) else s
    case Send(n) =>
      var left := s.client.left[n..];
      s.(toSdk := s.toSdk + s.client.left[..n],
         client := if left == [] then Waiting(s.client.m) else Sending(s.client.m, left))
    case SendFails => s.(client := Idle)
    case Receive =>
      var f := Parse(s.toHost);
      s.(toHost := f.rest, client := Idle, heard := Heard(s.heard, s.client.m, c.unmarshal(f.payload)))
    case ReceiveFails => s.(toHost := [], client := Idle)
    case Read =>
      var f := Parse(s.toSdk);
      var m := c.unmarshal(f.payload);
      s.(toSdk := f.rest, server := if m.Some? then Handling(m.value, false) else Dead)
    case Reply(reply) =>
      if Fits(c, reply)
      then s.(server := Writing(reply, Wire(c, reply)), served := s.served + [Exchange(s.server.m, Some(reply))])
      else Oversized(s, reply)
    case Write(n) =>
      var left := s.server.left[n..];
      s.(toHost := s.toHost + s.server.left[..n],
         server := if left == [] then AfterReply(s.server.reply) else Writing(s.server.reply, left))
    case Crash => s.(server := Dead)
    case CloseStart =>
      if Fits(c, Goodbye()) then s.(closer := Closing(Wire(c, Goodbye())), posted := s.posted + [Goodbye()])
          else s.(closer := Draining)
    case CloseSend(n) =>
      var left := s.closer.left[n..];
      s.(toSdk := s.toSdk + s.closer.left[..n], closer := if left == [] then Draining else Closing(left))
    case CloseDrain =>
      var f := Parse(s.toHost);
      s.(toHost := f.rest, closer := Drained, heard := Heard(s.heard, Goodbye(), c.unmarshal(f.payload)))
    case CloseKill => s.(toSdk := [], toHost := [], server := Dead, closer := Killed)
  }

  predicate Init(s: Conn) {
    s == Conn(s.language, [], [], Reading, Idle, Open, [], [], [])
  }

  ghost predicate Next(c: Codec, s: Conn, s': Conn) {
    exists a :: Orderly(c, s, a) && s' == Apply(c, s, a)
  }

  ghost predicate IsRun(c: Codec, run: seq<Conn>) {
    && |run| > 0 && Init(run[0])
    && forall i :: 0 <= i < |run| - 1 ==> Next(c, run[i], run[i + 1])
  }

  // --- The invariant: one exchange at a time ---

  /** The message whose exchange is under way. */
  function Current(c: Codec, s: Conn): Option<Message> {
    if !s.client.Idle? then Some(s.client.m)
    else if s.closer.Closing? || (s.closer.Draining? && Fits(c, Goodbye())) then Some(Goodbye())
    else None
  }

  function Unsent(s: Conn): Bytes {
    if s.client.Sending? then s.client.left else if s.closer.Closing? then s.closer.left else []
  }

  function Asked(served: seq<Exchange>): (ms: seq<Message>)
    ensures |ms| == |served| && forall i :: 0 <= i < |ms| ==> ms[i] == served[i].asked
  {
    seq(|served|, i requires 0 <= i < |served| => served[i].asked)
  }

  ghost predicate Sincere(s: Conn) {
    && (forall k :: 0 <= k < |s.served| && s.served[k].reply.Some? ==>
        Answers(s.served[k].asked, s.served[k].reply.value))
    && (forall k :: 0 <= k < |s.heard| ==> s.heard[k].reply.Some?)
  }

  predicate NothingInPipes(s: Conn) { Unsent(s) == [] && s.toSdk == [] && s.toHost == [] }

  /** Nothing is under way. */
  predicate Quiet(s: Conn) {
    NothingInPipes(s) && s.heard == s.served && Asked(s.served) == s.posted
  }

  /** The process has not read m yet. */
  predicate OnItsWay(c: Codec, s: Conn, m: Message) {
    && Fits(c, m) && s.toSdk + Unsent(s) == Wire(c, m) && s.toHost == []
    && s.heard == s.served && Asked(s.served) + [m] == s.posted
  }

  predicate BeingHandled(s: Conn, m: Message) {
    NothingInPipes(s) && s.heard == s.served && Asked(s.served) + [m] == s.posted
  }

  /** The last reply, to m, is unheard, and `left` of it is not written yet. */
  predicate Unheard(c: Codec, s: Conn, m: Message, left: Bytes) {
    && |s.served| > 0
    && var x := s.served[|s.served| - 1];
       && x.asked == m && s.heard + [x] == s.served
       && x.reply.Some? && Fits(c, x.reply.value) && s.toHost + left == Wire(c, x.reply.value)
  }

  predicate Replied(c: Codec, s: Conn, m: Message, left: Bytes) {
    Unsent(s) == [] && s.toSdk == [] && Unheard(c, s, m, left) && Asked(s.served) == s.posted
  }

  /** The reply was too large, and the SDK said nothing. */
  predicate Swallowed(s: Conn, m: Message) {
    NothingInPipes(s) && !s.language.Python? && s.heard + [Exchange(m, None)] == s.served && Asked(s.served) == s.posted
  }

  /** After a crash the host may still find one whole reply, or a part of one. */
  predicate Leftover(c: Codec, s: Conn) {
    && s.heard <= s.served && Asked(s.served) <= s.posted
    && (var front := Parse(s.toHost);
        if front.Frame? then Unsent(s) == [] && Current(c, s).Some? && Unheard(c, s, Current(c, s).value, [])
        else !front.BadLength?)
  }

  predicate OneExchange(c: Codec, s: Conn) {
    var m := Current(c, s);
    match s.server
    case Reading => if m.None? then Quiet(s)
        else OnItsWay(c, s, m.value) || Replied(c, s, m.value, []) || Swallowed(s, m.value)
    case Handling(h, _) => m == Some(h) && BeingHandled(s, h)
    case Writing(reply, left) => m.Some? && left != [] && Replied(c, s, m.value, left) &&
        s.served[|s.served| - 1].reply == Some(reply)
    case Left => if m.None? then Quiet(s) else Replied(c, s, m.value, []) || Swallowed(s, m.value)
    case Dead => Leftover(c, s)
  }

  predicate OneTalker(c: Codec, s: Conn) {
    && (!s.client.Idle? ==> s.closer.Open? && s.client.m.kind.Invoke? && Fits(c, s.client.m))
    && (s.client.Sending? ==> s.client.left != [])
    && (s.closer.Closing? ==> s.closer.left != [] && Fits(c, Goodbye()))
    && (s.server.Left? ==> !s.closer.Open?)
    && (s.closer.Killed? ==> s.server.Dead?)
  }

  ghost predicate Inv(c: Codec, s: Conn) {
    Sincere(s) && OneTalker(c, s) && OneExchange(c, s)
  }

  /** What was heard is what was served, in order, less at most the last one; and
      what was served is what was posted. */
  lemma HeardIsServed(c: Codec, s: Conn)
    requires Inv(c, s)
    ensures s.heard <= s.served && Asked(s.served) <= s.posted
  {
  }

  lemma CallKeepsInv(c: Codec, s: Conn, m: Message)
    requires Lawful(c) && Inv(c, s) && Orderly(c, s, Call(m))
    ensures Inv(c, Apply(c, s, Call(m)))
  {
    if Fits(c, m) { assert Wire(c, m) != []; }
  }

  lemma SendKeepsInv(c: Codec, s: Conn, n: nat)
    requires Lawful(c) && Inv(c, s) && Orderly(c, s, Send(n))
    ensures Inv(c, Apply(c, s, Send(n)))
  {
    var s' := Apply(c, s, Send(n));
    assert s'.toSdk + Unsent(s') == s.toSdk + Unsent(s);
  }

  lemma CloseSendKeepsInv(c: Codec, s: Conn, n: nat)
    requires Lawful(c) && Inv(c, s) && Orderly(c, s, CloseSend(n))
    ensures Inv(c, Apply(c, s, CloseSend(n)))
  {
    var s' := Apply(c, s, CloseSend(n));
    assert s'.toSdk + Unsent(s') == s.toSdk + Unsent(s);
  }

  lemma CloseStartKeepsInv(c: Codec, s: Conn)
    requires Lawful(c) && Inv(c, s) && Orderly(c, s, CloseStart)
    ensures Inv(c, Apply(c, s, CloseStart))
  {
    if Fits(c, Goodbye()) { assert Wire(c, Goodbye()) != []; }
  }

  /** Whoever reads a whole frame reads the reply to the message under way. */
  lemma FrameIsTheReply(c: Codec, s: Conn)
    requires Lawful(c) && Inv(c, s) && Parse(s.toHost).Frame?
    ensures Current(c, s).Some? && Unheard(c, s, Current(c, s).value, [])
    ensures Parse(s.toHost).rest == []
    ensures s.heard + [Exchange(Current(c, s).value, c.unmarshal(Parse(s.toHost).payload))] == s.served
    ensures !s.server.Dead? ==> Replied(c, s, Current(c, s).value, []) && (s.server.Reading? || s.server.Left?)
  {
    if s.server.Writing? {
      PartIsShort(c, s.server.reply, s.toHost, s.server.left);
    }
    var reply := s.served[|s.served| - 1].reply.value;
    assert s.toHost + [] == s.toHost;
    ReadsBack(c, reply);
  }

  lemma ReceiveKeepsInv(c: Codec, s: Conn)
    requires Lawful(c) && Inv(c, s) && Orderly(c, s, Receive)
    ensures Inv(c, Apply(c, s, Receive))
  {
    FrameIsTheReply(c, s);
  }

  lemma CloseDrainKeepsInv(c: Codec, s: Conn)
    requires Lawful(c) && Inv(c, s) && Orderly(c, s, CloseDrain)
    ensures Inv(c, Apply(c, s, CloseDrain))
  {
    FrameIsTheReply(c, s);
  }

  lemma ReadKeepsInv(c: Codec, s: Conn)
    requires Lawful(c) && Inv(c, s) && Orderly(c, s, Read)
    ensures Inv(c, Apply(c, s, Read))
  {
    var m := Current(c, s).value;
    if Unsent(s) != [] {
      PartIsShort(c, m, s.toSdk, Unsent(s));
    } else {
      assert s.toSdk + [] == s.toSdk;
      ReadsBack(c, m);
    }
  }

  lemma ReplyKeepsInv(c: Codec, s: Conn, reply: Message)
    requires Lawful(c) && Inv(c, s) && Orderly(c, s, Reply(reply))
    ensures Inv(c, Apply(c, s, Reply(reply)))
  {
    hide Inv, Apply, Lawful;
    if Fits(c, reply) { FittingKeepsInv(c, s, reply); } else { OversizedKeepsInv(c, s, reply); }
  }

  lemma FittingKeepsInv(c: Codec, s: Conn, reply: Message)
    requires Lawful(c) && Inv(c, s) && Orderly(c, s, Reply(reply)) && Fits(c, reply)
    ensures Inv(c, Apply(c, s, Reply(reply)))
  {
    hide Parse;
  }

  lemma OversizedKeepsInv(c: Codec, s: Conn, reply: Message)
    requires Lawful(c) && Inv(c, s) && Orderly(c, s, Reply(reply)) && !Fits(c, reply)
    ensures Inv(c, Apply(c, s, Reply(reply)))
  {
    hide Wire, Fits;
  }

  lemma WriteKeepsInv(c: Codec, s: Conn, n: nat)
    requires Lawful(c) && Inv(c, s) && Orderly(c, s, Write(n))
    ensures Inv(c, Apply(c, s, Write(n)))
  {
    var s' := Apply(c, s, Write(n));
    assert s'.toHost + s.server.left[n..] == s.toHost + s.server.left;
  }

  lemma FailureKeepsInv(c: Codec, s: Conn, a: Step)
    requires Lawful(c) && Inv(c, s) && Orderly(c, s, a) && (a.SendFails? || a.ReceiveFails? || a.CloseKill?)
    ensures Inv(c, Apply(c, s, a))
  {
  }

  /** What a crash leaves in the pipe to the host. */
  lemma CrashLeavesLittle(c: Codec, s: Conn)
    requires Lawful(c) && Inv(c, s) && !s.server.Dead?
    ensures !Parse(s.toHost).BadLength?
  {
    if s.server.Writing? {
      PartIsShort(c, s.server.reply, s.toHost, s.server.left);
    } else if s.toHost != [] {
      assert s.toHost + [] == s.toHost;
      ReadsBack(c, s.served[|s.served| - 1].reply.value);
    }
  }

  lemma CrashKeepsInv(c: Codec, s: Conn)
    requires Lawful(c) && Inv(c, s) && Orderly(c, s, Crash)
    ensures Inv(c, Apply(c, s, Crash))
  {
    var s' := Apply(c, s, Crash);
    HeardIsServed(c, s);
    CrashLeavesLittle(c, s);
    if Parse(s.toHost).Frame? {
      FrameIsTheReply(c, s);
      assert Unheard(c, s', Current(c, s').value, []);
    }
    assert Leftover(c, s') by { hide Wire, Unheard, Parse, Fits; }
  }

  lemma StepKeepsInv(c: Codec, s: Conn, a: Step)
    requires Lawful(c) && Inv(c, s) && Orderly(c, s, a)
    ensures Inv(c, Apply(c, s, a))
  {
    hide Apply, Enabled, Inv, Lawful;
    match a
    case Call(m) => CallKeepsInv(c, s, m);
    case Send(n) => SendKeepsInv(c, s, n);
    case Receive => ReceiveKeepsInv(c, s);
    case Read => ReadKeepsInv(c, s);
    case Reply(reply) => ReplyKeepsInv(c, s, reply);
    case Write(n) => WriteKeepsInv(c, s, n);
    case Crash => CrashKeepsInv(c, s);
    case CloseStart => CloseStartKeepsInv(c, s);
    case CloseSend(n) => CloseSendKeepsInv(c, s, n);
    case CloseDrain => CloseDrainKeepsInv(c, s);
    case _ => FailureKeepsInv(c, s, a);
  }

  lemma {:induction false} RunKeepsInv(c: Codec, run: seq<Conn>, n: nat)
    requires Lawful(c) && IsRun(c, run) && n < |run|
    ensures Inv(c, run[n])
  {
    if n > 0 {
      RunKeepsInv(c, run, n - 1);
      assert Next(c, run[n - 1], run[n - 1 + 1]);
      var a :| Orderly(c, run[n - 1], a) && run[n] == Apply(c, run[n - 1], a);
      StepKeepsInv(c, run[n - 1], a);
    }
  }

  // --- Replies are never crossed ---

  /** The k-th reply that was read is the reply the process gave to the k-th
      message, which is the k-th message that was written; and its id and kind
      are right, though nobody compares them. */
  lemma RepliesAreNeverCrossed(c: Codec, run: seq<Conn>, n: nat, k: nat)
    requires Lawful(c) && IsRun(c, run) && n < |run| && k < |run[n].heard|
    ensures var s := run[n];
            && k < |s.served| && s.heard[k] == s.served[k]
            && k < |s.posted| && s.heard[k].asked == s.posted[k]
            && s.heard[k].reply.Some? && Answers(s.posted[k], s.heard[k].reply.value)
  {
    RunKeepsInv(c, run, n);
    HeardIsServed(c, run[n]);
    assert Asked(run[n].served)[k] == run[n].served[k].asked;
  }

  /** A caller that waits can always be served by somebody, unless the Go SDK has
      dropped a reply that was too large, or the Node SDK an error that was: then,
      and only then, nothing can ever happen but the death of the process. */
  lemma WaitsInVainIff(c: Codec, run: seq<Conn>, n: nat)
    requires Lawful(c) && IsRun(c, run) && n < |run| && run[n].client.Waiting?
    ensures var s := run[n];
            var dropped := !s.server.Dead? && |s.served| > 0 && s.served[|s.served| - 1] == Exchange(s.client.m, None);
            && (dropped <==> forall a :: Orderly(c, s, a) ==> a.Crash?)
            && (dropped ==> !s.language.Python?)
  {
    RunKeepsInv(c, run, n);
    var s := run[n];
    if !(s.server.Reading? && Swallowed(s, s.client.m)) {
      var a := SomebodyMoves(c, s);
    }
  }

  lemma SomebodyMoves(c: Codec, s: Conn) returns (a: Step)
    requires Lawful(c) && Inv(c, s) && s.client.Waiting?
    requires !(s.server.Reading? && Swallowed(s, s.client.m))
    ensures Orderly(c, s, a) && !a.Crash?
  {
    if Parse(s.toHost).Frame? { return Receive; }
    hide Wire, Fits, Quiet, OnItsWay, BeingHandled, Replied, Leftover;
    match s.server
    case Handling(h, _) => a := Reply(Message(Error, h.id, []));
    case Writing(_, left) => a := Write(|left|);
    case Reading => ReadsNow(c, s); a := Read;
    case _ => a := ReceiveFails;
  }

  lemma ReadsNow(c: Codec, s: Conn)
    requires Lawful(c) && Inv(c, s) && s.client.Waiting? && s.server.Reading?
    requires !Parse(s.toHost).Frame? && !Swallowed(s, s.client.m)
    ensures Parse(s.toSdk).Frame?
  {
    var m := s.client.m;
    assert s.toSdk + [] == s.toSdk && s.toHost + [] == s.toHost;
    ReadsBack(c, m);
    if Replied(c, s, m, []) { ReadsBack(c, s.served[|s.served| - 1].reply.value); }
  }

  // --- Orderly continuations ---

  ghost predicate Path(c: Codec, path: seq<Conn>) {
    |path| > 0 && forall i :: 0 <= i < |path| - 1 ==> Next(c, path[i], path[i + 1])
  }

  lemma Continue(c: Codec, path: seq<Conn>, a: Step) returns (longer: seq<Conn>)
    requires Path(c, path) && Orderly(c, path[|path| - 1], a)
    ensures Path(c, longer) && longer[|longer| - 1] == Apply(c, path[|path| - 1], a) && longer[0] == path[0]
  {
    hide Enabled, Apply;
    longer := path + [Apply(c, path[|path| - 1], a)];
    forall i | 0 <= i < |longer| - 1 ensures Next(c, longer[i], longer[i + 1]) {
      if i < |path| - 1 { assert Next(c, path[i], path[i + 1]); }
    }
  }

  lemma WireSome(c: Codec, m: Message)
    requires Fits(c, m)
    ensures |Wire(c, m)| > 0 && Wire(c, m)[..|Wire(c, m)|] == Wire(c, m) && Wire(c, m)[|Wire(c, m)|..] == []
  {
  }

  /** A caller has written its message and the process has read it. */
  lemma AskedAndRead(c: Codec, language: Language, m: Message) returns (run: seq<Conn>)
    requires Lawful(c) && m.kind.Invoke? && Fits(c, m)
    ensures IsRun(c, run) && run[0].language == language
    ensures run[|run| - 1] == Conn(language, [], [], Handling(m, false), Waiting(m), Open, [m], [], [])
  {
    hide Wire;
    run := [Conn(language, [], [], Reading, Idle, Open, [], [], [])];
    run := Continue(c, run, Call(m));
    WireSome(c, m);
    run := Continue(c, run, Send(|Wire(c, m)|));
    assert [] + Wire(c, m) == Wire(c, m) && [] + [m] == [m];
    ReadsBack(c, m);
    run := Continue(c, run, Read);
  }

  /** Replies do get dropped: any caller of the Go SDK whose reply is too large ends
      up waiting like that, and any of the Node SDK whose error is. */
  lemma ReplyCanBeDropped(c: Codec, language: Language, m: Message, reply: Message) returns (run: seq<Conn>)
    requires Lawful(c) && m.kind.Invoke? && Fits(c, m) && Answers(m, reply) && !Fits(c, reply)
    requires language.Go? || (language.Node? && reply.kind.Error?)
    ensures IsRun(c, run) && run[0].language == language
    ensures var s := run[|run| - 1];
      s.client == Waiting(m) && !s.server.Dead? && |s.served| > 0 && s.served[|s.served| - 1] == Exchange(m, None)
  {
    run := AskedAndRead(c, language, m);
    hide Wire, IsRun;
    run := Continue(c, run, Reply(reply));
  }

  /** Once a reply is out in full, the process reads on; but after the answer to a
      shutdown it is gone and never reads again. */
  lemma AfterTheReply(c: Codec, s: Conn)
    requires s.server.Writing? && s.server.left != []
    ensures Enabled(c, s, Write(|s.server.left|))
    ensures var reply, s' := s.server.reply, Apply(c, s, Write(|s.server.left|));
      && s'.toHost == s.toHost + s.server.left
      && (if reply.kind.ShutdownOk? then Gone(s') && !s'.server.Dead? else s'.server.Reading?)
  {
    assert s.server.left[..|s.server.left|] == s.server.left;
  }

  /** Close, once it has begun, can always go on without anybody else moving, and then
      the process is dead and its pipes are empty. */
  lemma {:induction false} CloseCanFinish(c: Codec, path: seq<Conn>) returns (longer: seq<Conn>)
    requires Path(c, path) && !path[|path| - 1].closer.Open?
    requires path[|path| - 1].closer.Closing? ==> path[|path| - 1].closer.left != []
    ensures Path(c, longer) && longer[0] == path[0]
    ensures var s, t := path[|path| - 1], longer[|longer| - 1];
      && t.closer.Killed? && (!s.closer.Killed? ==> t.server.Dead? && t.toSdk == [] && t.toHost == [])
      && t.client == s.client
  {
    longer := path;
    var s := path[|path| - 1];
    if s.closer.Closing? { longer := Continue(c, longer, CloseSend(|s.closer.left|)); }
    if !s.closer.Killed? { longer := Continue(c, longer, CloseKill); }
  }

  /** A reply that fits is written and heard. */
  lemma ReplyArrives(c: Codec, run0: seq<Conn>, m: Message, reply: Message, mustFail: bool) returns (run: seq<Conn>)
    requires Lawful(c) && IsRun(c, run0) && Answers(m, reply) && Fits(c, reply) && m.kind.Invoke?
    requires mustFail ==> reply.kind.Error?
    requires run0[|run0| - 1] == Conn(run0[0].language, [], [], Handling(m, mustFail), Waiting(m), Open, [m], [], [])
    ensures IsRun(c, run) && run[0] == run0[0]
    ensures var s := run[|run| - 1];
      s.client.Idle? && s.server.Reading? && s.heard == [Exchange(m, Some(reply))] && s.toHost == []
  {
    hide Wire;
    run := Continue(c, run0, Reply(reply));
    WireSome(c, reply);
    run := Continue(c, run, Write(|Wire(c, reply)|));
    ReadsBack(c, reply);
    assert run[|run| - 1].toHost == Wire(c, reply);
    run := Continue(c, run, Receive);
  }

  /** A caller of the Python or the Node SDK whose result is too large hears an error
      instead, if that fits; and the process cannot answer with a result any more. */
  lemma ReplacementIsHeard(c: Codec, language: Language, m: Message, result: Message, error: Message)
    returns (run: seq<Conn>)
    requires Lawful(c) && m.kind.Invoke? && Fits(c, m) && !language.Go?
    requires Answers(m, result) && result.kind.Result? && !Fits(c, result)
    requires Answers(m, error) && error.kind.Error? && Fits(c, error)
    ensures IsRun(c, run) && run[0].language == language
    ensures var s := run[|run| - 1];
      s.client.Idle? && s.server.Reading? && s.heard == [Exchange(m, Some(error))]
  {
    run := AskedAndRead(c, language, m);
    hide Wire, IsRun;
    run := Continue(c, run, Reply(result));
    run := ReplyArrives(c, run, m, error, true);
  }

  /** Once a result was too large, only an error can be said. */
  lemma NoSecondResult(c: Codec, s: Conn, result: Message, reply: Message)
    requires Enabled(c, s, Reply(result)) && result.kind.Result? && !Fits(c, result) && !s.language.Go?
    ensures var s' := Apply(c, s, Reply(result));
      && s'.server.Handling? && s'.served == s.served
      && (Enabled(c, s', Reply(reply)) <==> Answers(s.server.m, reply) && reply.kind.Error?)
  {
  }

  // --- Closing while a caller waits, as closeAll does ---

  ghost predicate HastyNext(c: Codec, s: Conn, s': Conn) {
    exists a :: Enabled(c, s, a) && s' == Apply(c, s, a)
  }

  ghost predicate IsHastyRun(c: Codec, run: seq<Conn>) {
    && |run| > 0 && Init(run[0])
    && forall i :: 0 <= i < |run| - 1 ==> HastyNext(c, run[i], run[i + 1])
  }

  function Farewell(): Message { Message(ShutdownOk, "sd", []) }

  lemma Extend(c: Codec, run: seq<Conn>, a: Step) returns (longer: seq<Conn>)
    requires IsHastyRun(c, run) && Enabled(c, run[|run| - 1], a)
    ensures IsHastyRun(c, longer) && |longer| == |run| + 1 && longer[|run|] == Apply(c, run[|run| - 1], a) &&
        longer[0] == run[0]
  {
    longer := run + [Apply(c, run[|run| - 1], a)];
    forall i | 0 <= i < |longer| - 1 ensures HastyNext(c, longer[i], longer[i + 1]) {
      if i < |run| - 1 { assert HastyNext(c, run[i], run[i + 1]); }
    }
  }

  /** Call m, have it read, and let Close write its shutdown frame meanwhile. */
  lemma CloseCutsIn(c: Codec, language: Language, m: Message) returns (run: seq<Conn>)
    requires Lawful(c) && m.kind.Invoke? && Fits(c, m) && Fits(c, Goodbye())
    ensures IsHastyRun(c, run) && run[0].language == language
    ensures run[|run| - 1] == Conn(language, Wire(c, Goodbye()), [], Handling(m, false), Waiting(m), Draining,
        [m, Goodbye()], [], [])
  {
    hide Wire;
    run := [Conn(language, [], [], Reading, Idle, Open, [], [], [])];
    run := Extend(c, run, Call(m));
    WireSome(c, m);
    run := Extend(c, run, Send(|Wire(c, m)|));
    assert [] + Wire(c, m) == Wire(c, m) && [] + [m] == [m];
    ReadsBack(c, m);
    run := Extend(c, run, Read);
    run := Extend(c, run, CloseStart);
    WireSome(c, Goodbye());
    run := Extend(c, run, CloseSend(|Wire(c, Goodbye())|));
  }

  /** The reply to m then goes to Close. */
  lemma CloseTakesReply(c: Codec, run0: seq<Conn>, m: Message, reply: Message) returns (run: seq<Conn>)
    requires Lawful(c) && IsHastyRun(c, run0) && Answers(m, reply) && Fits(c, reply) && Fits(c, Goodbye())
    requires run0[|run0| - 1] == Conn(run0[0].language, Wire(c, Goodbye()), [], Handling(m, false), Waiting(m),
        Draining, [m, Goodbye()], [], [])
    requires m.kind.Invoke?
    ensures IsHastyRun(c, run) && run[0].language == run0[0].language
    ensures run[|run| - 1] == Conn(run[0].language, Wire(c, Goodbye()), [], Reading, Waiting(m), Drained,
        [m, Goodbye()],
                                   [Exchange(m, Some(reply))], [Exchange(Goodbye(), Some(reply))])
  {
    hide Wire;
    run := Extend(c, run0, Reply(reply));
    WireSome(c, reply);
    run := Extend(c, run, Write(|Wire(c, reply)|));
    ReadsBack(c, reply);
    assert run[|run| - 1].toHost == Wire(c, reply);
    run := Extend(c, run, CloseDrain);
  }

  /** Without the reaper's discipline replies do cross: whatever the language, the
      caller and the reply, Close can take the reply and leave the caller with
      the answer to the shutdown, whose id it does not check. */
  lemma CloseCrossesReplies(c: Codec, language: Language, m: Message, reply: Message) returns (run: seq<Conn>)
    requires Lawful(c) && m.kind.Invoke? && Answers(m, reply)
    requires Fits(c, m) && Fits(c, reply) && Fits(c, Goodbye()) && Fits(c, Farewell())
    ensures IsHastyRun(c, run) && run[0].language == language
    ensures run[|run| - 1].heard == [Exchange(Goodbye(), Some(reply)), Exchange(m, Some(Farewell()))]
  {
    hide Wire;
    run := CloseCutsIn(c, language, m);
    run := CloseTakesReply(c, run, m, reply);
    ReadsBack(c, Goodbye());
    run := Extend(c, run, Read);
    run := Extend(c, run, Reply(Farewell()));
    WireSome(c, Farewell());
    run := Extend(c, run, Write(|Wire(c, Farewell())|));
    ReadsBack(c, Farewell());
    assert run[|run| - 1].toHost == Wire(c, Farewell());
    run := Extend(c, run, Receive);
  }
}
