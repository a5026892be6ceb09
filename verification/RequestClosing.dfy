/** When Close may start: the exact condition, for every reachable state of a
    connection. */
module RequestClosing {
  import opened Framing
  import opened Messages
  import opened Options
  import opened RequestReply

  predicate Paired(x: Exchange) { x.reply.Some? ==> Answers(x.asked, x.reply.value) }

  /** Somebody has heard a reply that was meant for somebody else. */
  ghost predicate Crossed(s: Conn) { exists k :: 0 <= k < |s.heard| && !Paired(s.heard[k]) }

  /** The process can still get a reply to the host: it lives, or a whole reply of
      its is in the pipe. */
  predicate CanAnswer(s: Conn) { !s.server.Dead? || Parse(s.toHost).Frame? }

  // --- Starting is safe ---

  lemma InvIsNotCrossed(c: Codec, s: Conn)
    requires Inv(c, s)
    ensures !Crossed(s)
  {
    HeardIsServed(c, s);
    assert forall k :: 0 <= k < |s.heard| ==> s.heard[k] == s.served[k];
  }

  lemma {:induction false} PathKeepsInv(c: Codec, path: seq<Conn>, n: nat)
    requires Lawful(c) && Path(c, path) && n < |path| && Inv(c, path[0])
    ensures Inv(c, path[n])
  {
    if n > 0 {
      PathKeepsInv(c, path, n - 1);
      hide Inv, Orderly, Apply, Lawful;
      assert Next(c, path[n - 1], path[n - 1 + 1]);
      var a :| Orderly(c, path[n - 1], a) && path[n] == Apply(c, path[n - 1], a);
      StepKeepsInv(c, path[n - 1], a);
    }
  }

  /** A dead process without a whole reply in the pipe: nobody hears anything more. */
  ghost predicate Mute(s: Conn) {
    s.server.Dead? && !Parse(s.toHost).Frame? && !s.closer.Open? && !Crossed(s)
  }

  lemma StepKeepsMute(c: Codec, s: Conn, a: Step)
    requires Mute(s) && Orderly(c, s, a)
    ensures Mute(Apply(c, s, a))
  {
    assert Apply(c, s, a).heard == s.heard;
    assert !Parse([]).Frame?;
  }

  lemma {:induction false} PathKeepsMute(c: Codec, path: seq<Conn>, n: nat)
    requires Path(c, path) && n < |path| && Mute(path[0])
    ensures Mute(path[n])
  {
    if n > 0 {
      PathKeepsMute(c, path, n - 1);
      hide Mute, Orderly, Apply;
      assert Next(c, path[n - 1], path[n - 1 + 1]);
      var a :| Orderly(c, path[n - 1], a) && path[n] == Apply(c, path[n - 1], a);
      StepKeepsMute(c, path[n - 1], a);
    }
  }

  // --- Starting is not safe ---

  /** Close has written its frame while m is under way. */
  lemma CutsIn(c: Codec, s: Conn) returns (path: seq<Conn>)
    requires Inv(c, s) && s.closer.Open? && !s.client.Idle? && Fits(c, Goodbye())
    ensures Path(c, path) && path[0] == Apply(c, s, CloseStart)
    ensures path[|path| - 1] == s.(client := Waiting(s.client.m), closer := Draining, posted := s.posted + [Goodbye()],
                                   toSdk := s.toSdk + Unsent(s) + Wire(c, Goodbye()))
  {
    hide Wire, OneExchange, Parse;
    path := [Apply(c, s, CloseStart)];
    if s.client.Sending? {
      var left := s.client.left;
      path := Continue(c, path, Send(|left|));
      assert left[..|left|] == left && left[|left|..] == [];
    } else {
      assert s.toSdk + [] == s.toSdk;
    }
    WireSome(c, Goodbye());
    path := Continue(c, path, CloseSend(|Wire(c, Goodbye())|));
  }

  /** A reply in the pipe goes to Close. */
  lemma DrainCrosses(c: Codec, path: seq<Conn>, reply: Message) returns (longer: seq<Conn>)
    requires Lawful(c) && Path(c, path) && Fits(c, reply) && (reply.kind.Result? || reply.kind.Error?)
    requires path[|path| - 1].closer.Draining? && path[|path| - 1].toHost == Wire(c, reply)
    ensures Path(c, longer) && longer[0] == path[0] && Crossed(longer[|longer| - 1])
  {
    hide Wire;
    ReadsBack(c, reply);
    longer := Continue(c, path, CloseDrain);
    var heard := longer[|longer| - 1].heard;
    assert heard[|heard| - 1] == Exchange(Goodbye(), Some(reply));
    assert !Paired(heard[|heard| - 1]);
  }

  lemma WritingCrosses(c: Codec, path: seq<Conn>) returns (longer: seq<Conn>)
    requires Lawful(c) && Path(c, path)
    requires var s := path[|path| - 1];
      && s.closer.Draining? && s.server.Writing? && s.server.left != [] && Fits(c, s.server.reply)
      && (s.server.reply.kind.Result? || s.server.reply.kind.Error?) &&
          s.toHost + s.server.left == Wire(c, s.server.reply)
    ensures Path(c, longer) && longer[0] == path[0] && Crossed(longer[|longer| - 1])
  {
    hide Wire;
    var s := path[|path| - 1];
    assert s.server.left[..|s.server.left|] == s.server.left;
    longer := Continue(c, path, Write(|s.server.left|));
    longer := DrainCrosses(c, longer, s.server.reply);
  }

  lemma HandlingCrosses(c: Codec, path: seq<Conn>) returns (longer: seq<Conn>)
    requires Lawful(c) && Path(c, path)
    requires var s := path[|path| - 1];
      && s.closer.Draining? && s.server.Handling? && s.server.m.kind.Invoke? && s.toHost == []
      && Fits(c, Message(Error, s.server.m.id, []))
    ensures Path(c, longer) && longer[0] == path[0] && Crossed(longer[|longer| - 1])
  {
    hide Wire;
    var reply := Message(Error, path[|path| - 1].server.m.id, []);
    longer := Continue(c, path, Reply(reply));
    WireSome(c, reply);
    assert [] + Wire(c, reply) == Wire(c, reply);
    longer := WritingCrosses(c, longer);
  }

  lemma ReadingCrosses(c: Codec, path: seq<Conn>, m: Message, tail: Bytes) returns (longer: seq<Conn>)
    requires Lawful(c) && Path(c, path) && m.kind.Invoke? && Fits(c, m) && Fits(c, Message(Error, m.id, []))
    requires var s := path[|path| - 1];
      s.closer.Draining? && s.server.Reading? && s.toHost == [] && s.toSdk == Wire(c, m) + tail
    ensures Path(c, longer) && longer[0] == path[0] && Crossed(longer[|longer| - 1])
  {
    ParseEncode(c.marshal(m), tail);
    assert c.unmarshal(c.marshal(m)) == Some(m);
    assert Parse(path[|path| - 1].toSdk) == Frame(c.marshal(m), tail);
    hide Wire, Parse;
    longer := Continue(c, path, Read);
    longer := HandlingCrosses(c, longer);
  }

  /** When the Go SDK has dropped the reply, the caller hears the answer to the
      shutdown instead. */
  lemma DroppedCrosses(c: Codec, path: seq<Conn>, m: Message) returns (longer: seq<Conn>)
    requires Lawful(c) && Path(c, path) && m.kind.Invoke? && Fits(c, Goodbye()) && Fits(c, Farewell())
    requires var s := path[|path| - 1];
      s.client == Waiting(m) && s.server.Reading? && s.toHost == [] && s.toSdk == Wire(c, Goodbye())
    ensures Path(c, longer) && longer[0] == path[0] && Crossed(longer[|longer| - 1])
  {
    hide Wire;
    ReadsBack(c, Goodbye());
    longer := Continue(c, path, Read);
    longer := Continue(c, longer, Reply(Farewell()));
    WireSome(c, Farewell());
    longer := Continue(c, longer, Write(|Wire(c, Farewell())|));
    assert [] + Wire(c, Farewell()) == Wire(c, Farewell());
    longer := CallerHearsFarewell(c, longer, m);
  }

  lemma CallerHearsFarewell(c: Codec, path: seq<Conn>, m: Message) returns (longer: seq<Conn>)
    requires Lawful(c) && Path(c, path) && m.kind.Invoke? && Fits(c, Farewell())
    requires path[|path| - 1].client == Waiting(m) && path[|path| - 1].toHost == Wire(c, Farewell())
    ensures Path(c, longer) && longer[0] == path[0] && Crossed(longer[|longer| - 1])
  {
    hide Wire;
    ReadsBack(c, Farewell());
    longer := Continue(c, path, Receive);
    var heard := longer[|longer| - 1].heard;
    assert heard[|heard| - 1] == Exchange(m, Some(Farewell()));
    assert !Paired(heard[|heard| - 1]);
  }

  /** The frames that are small whatever the id: an empty error, the shutdown and
      its answer. */
  predicate SmallFit(c: Codec, id: string) {
    Fits(c, Message(Error, id, [])) && Fits(c, Goodbye()) && Fits(c, Farewell())
  }

  lemma StartingCrosses(c: Codec, s: Conn) returns (path: seq<Conn>)
    requires Lawful(c) && Inv(c, s) && s.closer.Open? && !s.client.Idle? && CanAnswer(s) && SmallFit(c, s.client.m.id)
    ensures Path(c, path) && path[0] == Apply(c, s, CloseStart) && Crossed(path[|path| - 1])
  {
    var m := s.client.m;
    path := CutsIn(c, s);
    if s.server.Handling? {
      path := HandlingCrosses(c, path);
    } else if s.server.Writing? {
      var x := s.served[|s.served| - 1];
      assert Answers(x.asked, x.reply.value);
      path := WritingCrosses(c, path);
    } else if OnItsWay(c, s, m) && s.server.Reading? {
      path := ReadingCrosses(c, path, m, Wire(c, Goodbye()));
    } else if Swallowed(s, m) && s.server.Reading? {
      assert [] + [] + Wire(c, Goodbye()) == Wire(c, Goodbye());
      path := DroppedCrosses(c, path, m);
    } else {
      assert Unheard(c, s, m, []);
      var x := s.served[|s.served| - 1];
      assert s.toHost + [] == s.toHost;
      assert Answers(x.asked, x.reply.value);
      path := DrainCrosses(c, path, x.reply.value);
    }
  }

  // --- Main result ---

  /** In every state the discipline allows, starting Close is safe if and only if no
      caller is inside Invoke or the process can no longer answer: otherwise some
      continuation, in which nobody else breaks the rules, crosses replies. */
  lemma CloseIsSafeIff(c: Codec, s: Conn)
    requires Lawful(c) && Inv(c, s) && s.closer.Open?
    requires !s.client.Idle? ==> SmallFit(c, s.client.m.id)
    ensures (forall path :: Path(c, path) && path[0] == Apply(c, s, CloseStart) ==> !Crossed(path[|path| - 1]))
            <==> s.client.Idle? || !CanAnswer(s)
  {
    hide Inv, Apply, Crossed;
    if s.client.Idle? {
      CloseStartKeepsInv(c, s);
      forall path | Path(c, path) && path[0] == Apply(c, s, CloseStart) ensures !Crossed(path[|path| - 1]) {
        PathKeepsInv(c, path, |path| - 1);
        InvIsNotCrossed(c, path[|path| - 1]);
      }
    } else if !CanAnswer(s) {
      StartsMute(c, s);
      forall path | Path(c, path) && path[0] == Apply(c, s, CloseStart) ensures !Crossed(path[|path| - 1]) {
        PathKeepsMute(c, path, |path| - 1);
      }
    } else {
      var path := StartingCrosses(c, s);
    }
  }

  lemma StartsMute(c: Codec, s: Conn)
    requires Inv(c, s) && s.closer.Open? && !CanAnswer(s)
    ensures Mute(Apply(c, s, CloseStart))
  {
    InvIsNotCrossed(c, s);
    assert Apply(c, s, CloseStart).heard == s.heard;
    hide Inv, Parse;
  }
}
