/** The Node SDK's loop over the frames of its connection, which is left early in
    three ways. */
module NodeLoop {
  import opened Framing
  import M = Messages
  import opened NodeReader
  import O = Options
  import opened Sequences

  /** What JSON.parse and the dispatcher make of a payload: an invoke, whose handler
      may take its time; another message that is answered at once; a shutdown; a
      value that counts as false; or an exception. */
  datatype Kind = Invoke | Plain | Shutdown | Falsy | NotJson {
    predicate GoesOn() { Invoke? || Plain? }
    predicate Dispatched() { GoesOn() || Shutdown? }
  }

  /** The kind of a payload, for a marshaller: odd values that count as true are
      dispatched, and answered as unknown. */
  function KindOf(c: M.Codec, p: Bytes): Kind {
    match c.unmarshal(p)
    case Some(m) => if m.kind.Shutdown? then Shutdown else if m.kind.Invoke? then Invoke else Plain
    case None =>
      (match c.oddity(p)
       case Truthy => Plain
       case NotJson => NotJson
       case _ => Falsy)
  }

  /** Of the messages only an invoke is waited for and only a shutdown ends the loop; of
      what is no message a value that counts as true is dispatched, and what is no JSON
      at all makes the reader throw. */
  lemma KindMeans(c: M.Codec, m: M.Message, p: Bytes)
    requires M.Lawful(c)
    ensures var k := KindOf(c, c.marshal(m));
      k.Dispatched() && (k.Invoke? <==> m.kind.Invoke?) && (k.GoesOn() <==> !m.kind.Shutdown?)
    ensures c.unmarshal(p).None? ==>
      var k := KindOf(c, p);
      && (k.NotJson? <==> c.oddity(p).NotJson?) && (k.Dispatched() <==> c.oddity(p).Truthy?)
      && (k.Dispatched() ==> k.Plain?)
  {
    assert c.unmarshal(c.marshal(m)) == O.Some(m);
  }

  /** Why a loop ends: it needs more data, it met a shutdown or a falsy frame, or the
      reader threw. */
  datatype Exit = Starved | Stopped | BadJson | WrongLength {
    predicate Destroys() { BadJson? || WrongLength? }
  }

  /** The work of one loop: what was dispatched, what is left in the buffer, and why
      it ended. */
  datatype Turn = Turn(handled: seq<Bytes>, rest: Bytes, exit: Exit)

  function Then(handled: seq<Bytes>, t: Turn): Turn { Turn(handled + t.handled, t.rest, t.exit) }

  function Handle(kind: Bytes -> Kind, buf: Bytes): Turn
    decreases |buf|
  {
    match Parse(buf)
    case Frame(p, rest) =>
      (match kind(p)
       case Shutdown => Turn([p], rest, Stopped)
       case Falsy => Turn([], rest, Stopped)
       case NotJson => Turn([], rest, BadJson)
       case _ => Then([p], Handle(kind, rest)))
    case BadLength(_) => Turn([], buf, WrongLength)
    case _ => Turn([], buf, Starved)
  }

  /** One data event while no other is being worked on: the loop as it is written. */
  method OnData(r: FrameReader, chunk: Bytes, kind: Bytes -> Kind) returns (handled: seq<Bytes>, exit: Exit)
    requires r.Valid()
    modifies r
    ensures r.Valid() && Turn(handled, r.Buffer(), exit) == Handle(kind, old(r.Buffer()) + chunk)
  {
    r.Push(chunk);
    ghost var all := r.Buffer();
    handled, exit := [], Starved;
    hide Flat;
    var going := true;
    while going
      invariant r.Valid()
      invariant if going then Handle(kind, all) == Then(handled, Handle(kind, r.Buffer()))
                else Handle(kind, all) == Turn(handled, r.Buffer(), exit)
      decreases going, |r.Buffer()|
    {
      OneTurn(kind, handled, r.Buffer());
      var out := r.Next();
      if out.Got? {
        var k := kind(out.payload);
        if k.Dispatched() { handled := handled + [out.payload]; }
        going, exit := k.GoesOn(), if k.NotJson? then BadJson else Stopped;
      } else {
        going, exit := false, if out.Throw? then WrongLength else Starved;
      }
    }
  }

  /** One turn of the loop. */
  lemma OneTurn(kind: Bytes -> Kind, handled: seq<Bytes>, buf: Bytes)
    ensures Then(handled, Handle(kind, buf)) ==
      match Parse(buf)
      case Frame(p, rest) =>
        (match kind(p)
         case Shutdown => Turn(handled + [p], rest, Stopped)
         case Falsy => Turn(handled, rest, Stopped)
         case NotJson => Turn(handled, rest, BadJson)
         case _ => Then(handled + [p], Handle(kind, rest)))
      case BadLength(_) => Turn(handled, buf, WrongLength)
      case _ => Turn(handled, buf, Starved)
  {
    hide Parse;
    if Parse(buf).Frame? && kind(Parse(buf).payload).GoesOn() {
      var p, t := Parse(buf).payload, Handle(kind, Parse(buf).rest);
      assert handled + ([p] + t.handled) == (handled + [p]) + t.handled;
    }
    assert handled + [] == handled;
  }

  predicate Short(buf: Bytes) { Parse(buf).ShortHeader? || Parse(buf).ShortPayload? }

  lemma ShortIsIdle(kind: Bytes -> Kind, b: Bytes)
    requires Short(b)
    ensures Handle(kind, b) == Turn([], b, Starved)
  {
  }

  /** A stream with a frame in front. */
  lemma FrameAlone(p: Bytes, rest: Bytes)
    requires Sendable(p)
    ensures Parse(Encode(p) + rest) == Frame(p, rest) && Encode(p) != []
  {
    ParseEncode(p, rest);
  }

  function HandleFrame(kind: Bytes -> Kind, p: Bytes, rest: Bytes): Turn {
    match kind(p)
    case Shutdown => Turn([p], rest, Stopped)
    case Falsy => Turn([], rest, Stopped)
    case NotJson => Turn([], rest, BadJson)
    case _ => Then([p], Handle(kind, rest))
  }

  lemma HandleEncoded(kind: Bytes -> Kind, p: Bytes, rest: Bytes)
    requires Sendable(p)
    ensures Handle(kind, Encode(p) + rest) == HandleFrame(kind, p, rest)
  {
    FrameAlone(p, rest);
    hide Parse, Encode;
  }

  lemma HandleOne(kind: Bytes -> Kind, p: Bytes)
    requires Sendable(p) && !kind(p).NotJson? && !kind(p).Falsy?
    ensures Handle(kind, Encode(p)) == Turn([p], [], if kind(p).Shutdown? then Stopped else Starved)
  {
    HandleEncoded(kind, p, []);
    assert Handle(kind, []) == Turn([], [], Starved);
    hide Parse, Encode, Handle;
    assert Encode(p) + [] == Encode(p) && [p] + [] == [p];
  }

  lemma ThenTwice(a: seq<Bytes>, b: seq<Bytes>, t: Turn)
    ensures Then(a, Then(b, t)) == Then(a + b, t)
  {
    assert a + (b + t.handled) == (a + b) + t.handled;
  }

  /** What is not short makes a loop do something. */
  lemma {:induction false} Progresses(kind: Bytes -> Kind, b: Bytes)
    requires !Short(b)
    ensures Handle(kind, b).exit.Destroys() || |Handle(kind, b).rest| < |b|
    decreases |b|
  {
    if Parse(b).Frame? && kind(Parse(b).payload).GoesOn() {
      var rest := Parse(b).rest;
      if Short(rest) { ShortIsIdle(kind, rest); } else { Progresses(kind, rest); }
    }
  }

  lemma {:induction false} RestIsPart(kind: Bytes -> Kind, b: Bytes)
    ensures |Handle(kind, b).rest| <= |b|
    decreases |b|
  {
    if Parse(b).Frame? && kind(Parse(b).payload).GoesOn() { RestIsPart(kind, Parse(b).rest); }
  }

  lemma ShortMeans(b: Bytes)
    ensures Short(b) <==> ParseAll(b).frames == [] && !Parse(ParseAll(b).rest).BadLength?
  {
    if Parse(b).Frame? { assert ParseAll(b).frames[0] == Parse(b).payload; }
  }

  // --- By position ---

  /** The first frame at which the loop over all of them does not go on. */
  predicate LeavesAt(kind: Bytes -> Kind, frames: seq<Bytes>, i: nat)
    requires i < |frames|
  {
    (forall j :: 0 <= j < i ==> kind(frames[j]).GoesOn()) && !kind(frames[i]).GoesOn()
  }

  /** What one loop over a stream does, in terms of its frames, if i is the first at
      which it does not go on. */
  ghost predicate Does(kind: Bytes -> Kind, t: Turn, all: Parsed, i: nat) {
    && i <= |all.frames|
    && (forall j :: 0 <= j < i ==> kind(all.frames[j]).GoesOn())
    && if i == |all.frames| then
         t == Turn(all.frames, all.rest, if Parse(all.rest).BadLength? then WrongLength else Starved)
       else
         && LeavesAt(kind, all.frames, i)
         && t.handled == all.frames[..i] + (if kind(all.frames[i]).Shutdown? then [all.frames[i]] else [])
         && t.exit == (if kind(all.frames[i]).NotJson? then BadJson else Stopped)
         && ParseAll(t.rest) == Parsed(all.frames[i + 1..], all.rest)
  }

  lemma DoesMore(kind: Bytes -> Kind, p: Bytes, t: Turn, tail: Parsed, k: nat)
    requires Does(kind, t, tail, k) && kind(p).GoesOn()
    ensures Does(kind, Then([p], t), Parsed([p] + tail.frames, tail.rest), k + 1)
  {
    hide Parse, ParseAll;
    var frames := [p] + tail.frames;
    assert forall j :: 0 < j < |frames| ==> frames[j] == tail.frames[j - 1];
    assert frames[..k + 1] == [p] + tail.frames[..k];
    if k < |tail.frames| {
      assert frames[k + 1..][1..] == tail.frames[k + 1..];
      var last := if kind(tail.frames[k]).Shutdown? then [tail.frames[k]] else [];
      assert [p] + (tail.frames[..k] + last) == frames[..k + 1] + last;
    }
  }

  lemma {:induction false} HandleMeans(kind: Bytes -> Kind, b: Bytes) returns (i: nat)
    ensures Does(kind, Handle(kind, b), ParseAll(b), i)
    decreases |b|
  {
    i := 0;
    if Parse(b).Frame? {
      var p, rest := Parse(b).payload, Parse(b).rest;
      var tail := ParseAll(rest);
      assert ParseAll(b) == Parsed([p] + tail.frames, tail.rest);
      if kind(p).GoesOn() {
        var k := HandleMeans(kind, rest);
        assert Handle(kind, b) == Then([p], Handle(kind, rest));
        DoesMore(kind, p, Handle(kind, rest), tail, k);
        hide Parse, Handle, ParseAll, Does;
        i := k + 1;
      } else {
        assert ParseAll(b).frames[1..] == tail.frames && ParseAll(b).frames[..0] == [];
      }
    }
  }

  /** If every frame is answered and none is a shutdown, the loop handles all of them. */
  lemma PlainIsParseAll(kind: Bytes -> Kind, b: Bytes)
    requires forall p :: p in ParseAll(b).frames ==> kind(p).GoesOn()
    ensures var all := ParseAll(b);
      Handle(kind, b) == Turn(all.frames, all.rest, if Parse(all.rest).BadLength? then WrongLength else Starved)
  {
    var i := HandleMeans(kind, b);
    hide Handle, ParseAll;
    var frames := ParseAll(b).frames;
    assert forall j :: 0 <= j < |frames| ==> frames[j] in frames;
  }
}
