/** The connection of the Node SDK.  Every data event queues one loop over the frames;
    while a loop waits for a handler, more chunks may arrive. */
module NodeConnection {
  import opened Framing
  import M = Messages
  import opened NodeLoop
  import opened NodeReader
  import O = Options
  import opened Sequences

  // --- A whole connection ---

  datatype Phase = Idle | Running | Awaiting

  /** The bytes not yet delivered, the reader's buffer, the loops that are queued,
      what the current loop does, whether the socket was destroyed, and what was
      dispatched. */
  datatype Net = Net(todo: Bytes, buf: Bytes, queued: nat, phase: Phase, destroyed: bool, handled: seq<Bytes>)

  /** A chunk of n bytes arrives; a queued loop begins; the loop looks for a frame and
      deals with it; the handler it waits for is done. */
  datatype Step = Data(n: nat) | Begin | Look | Resume

  function Start(b: Bytes): Net { Net(b, [], 0, Idle, false, []) }

  /** Callbacks run to completion: a chunk arrives only when there is nothing to do or
      a handler is being waited for.  A destroyed socket delivers nothing more, but
      the loops already queued still run. */
  predicate Enabled(s: Net, a: Step) {
    match a
    case Data(n) => !s.destroyed && 0 < n <= |s.todo| && (s.phase.Awaiting? || (s.phase.Idle? && s.queued == 0))
    case Begin => s.phase.Idle? && s.queued > 0
    case Look => s.phase.Running?
    case Resume => s.phase.Awaiting?
  }

  function LookAt(kind: Bytes -> Kind, s: Net): Net {
    match Parse(s.buf)
    case Frame(p, rest) =>
      (match kind(p)
       case Invoke => s.(buf := rest, phase := Awaiting, handled := s.handled + [p])
       case Plain => s.(buf := rest, handled := s.handled + [p])
       case Shutdown => s.(buf := rest, phase := Idle, handled := s.handled + [p])
       case Falsy => s.(buf := rest, phase := Idle)
       case NotJson => s.(buf := rest, phase := Idle, destroyed := true))
    case BadLength(_) => s.(phase := Idle, destroyed := true)
    case _ => s.(phase := Idle)
  }

  function Apply(kind: Bytes -> Kind, s: Net, a: Step): Net
    requires Enabled(s, a)
  {
    match a
    case Data(n) => s.(todo := s.todo[n..], buf := s.buf + s.todo[..n], queued := s.queued + 1)
    case Begin => s.(queued := s.queued - 1, phase := Running)
    case Look => LookAt(kind, s)
    case Resume => s.(phase := Running)
  }

  /** A frame with which the loop goes on. */
  function Dispatch(kind: Bytes -> Kind, s: Net, p: Bytes, rest: Bytes): Net {
    s.(buf := rest, phase := if kind(p).Invoke? then Awaiting else Running, handled := s.handled + [p])
  }

  predicate Path(kind: Bytes -> Kind, s: Net, acts: seq<Step>, t: Net)
    decreases |acts|
  {
    if acts == [] then s == t else Enabled(s, acts[0]) && Path(kind, Apply(kind, s, acts[0]), acts[1..], t)
  }

  ghost predicate Reaches(kind: Bytes -> Kind, s: Net, t: Net) { exists acts :: Path(kind, s, acts, t) }

  /** Nothing can happen any more. */
  predicate Finished(s: Net) { s.phase.Idle? && s.queued == 0 && (s.destroyed || s.todo == []) }

  datatype Session = Alive(handled: seq<Bytes>, rest: Bytes) | Destroyed(handled: seq<Bytes>)

  function Outcome(s: Net): Session { if s.destroyed then Destroyed(s.handled) else Alive(s.handled, s.buf) }

  function Ending(t: Turn): Session { if t.exit.Destroys() then Destroyed(t.handled) else Alive(t.handled, t.rest) }

  /** The end of every finished run over b. */
  ghost predicate AlwaysEnds(kind: Bytes -> Kind, b: Bytes, session: Session) {
    forall t :: Reaches(kind, Start(b), t) && Finished(t) ==> Outcome(t) == session
  }

  lemma FinishedIff(s: Net)
    ensures Finished(s) <==> forall a :: !Enabled(s, a)
  {
    if !Finished(s) {
      assert Enabled(s, Begin) || Enabled(s, Look) || Enabled(s, Resume) || Enabled(s, Data(|s.todo|));
    }
  }

  // --- Runs ---

  lemma Here(kind: Bytes -> Kind, s: Net)
    ensures Reaches(kind, s, s)
  {
    assert Path(kind, s, [], s);
  }

  lemma {:induction false} PathJoin(kind: Bytes -> Kind, s: Net, before: seq<Step>, t: Net, after: seq<Step>, u: Net)
    requires Path(kind, s, before, t) && Path(kind, t, after, u)
    ensures Path(kind, s, before + after, u)
    decreases |before|
  {
    hide Apply, Enabled;
    if before == [] {
      assert before + after == after;
    } else {
      assert (before + after)[1..] == before[1..] + after;
      PathJoin(kind, Apply(kind, s, before[0]), before[1..], t, after, u);
    }
  }

  lemma Join(kind: Bytes -> Kind, s: Net, t: Net, u: Net)
    requires Reaches(kind, s, t) && Reaches(kind, t, u)
    ensures Reaches(kind, s, u)
  {
    var before :| Path(kind, s, before, t);
    var after :| Path(kind, t, after, u);
    PathJoin(kind, s, before, t, after, u);
  }

  lemma Steps(kind: Bytes -> Kind, s: Net, t: Net, a: Step)
    requires Reaches(kind, s, t) && Enabled(t, a)
    ensures Reaches(kind, s, Apply(kind, t, a))
  {
    var u := Apply(kind, t, a);
    assert Path(kind, u, [], u) && [a][1..] == [];
    assert Path(kind, t, [a], u);
    Join(kind, s, t, u);
  }

  /** What one loop leaves, if nothing arrives meanwhile. */
  function After(s: Net, t: Turn): Net {
    s.(buf := t.rest, phase := Idle, destroyed := s.destroyed || t.exit.Destroys(), handled := s.handled + t.handled)
  }

  /** A loop during whose waits nothing arrives. */
  lemma {:induction false} LoopRuns(kind: Bytes -> Kind, s: Net)
    requires s.phase.Running?
    ensures var t := Handle(kind, s.buf);
      Reaches(kind, s, After(s, t))
    decreases |s.buf|
  {
    Here(kind, s);
    Steps(kind, s, s, Look);
    var u := LookAt(kind, s);
    OneTurn(kind, s.handled, s.buf);
    var end := Then(s.handled, Handle(kind, s.buf));
    if Parse(s.buf).Frame? && kind(Parse(s.buf).payload).GoesOn() {
      var v := u.(phase := Running);
      if u.phase.Awaiting? { Steps(kind, s, u, Resume); }
      assert Reaches(kind, s, v);
      LoopRuns(kind, v);
      hide Handle, Parse, Reaches;
      var t := Handle(kind, v.buf);
      assert v.handled + t.handled == end.handled;
      Join(kind, s, v, After(v, t));
    }
  }

  /** A chunk that arrives when there is nothing to do, and its loop. */
  lemma ChunkRuns(kind: Bytes -> Kind, s: Net, n: nat)
    requires s.phase.Idle? && s.queued == 0 && !s.destroyed && 0 < n <= |s.todo|
    ensures var t := Handle(kind, s.buf + s.todo[..n]);
      Reaches(kind, s, Net(s.todo[n..], t.rest, 0, Idle, t.exit.Destroys(), s.handled + t.handled))
  {
    Here(kind, s);
    Steps(kind, s, s, Data(n));
    var u := Apply(kind, s, Data(n));
    Steps(kind, s, u, Begin);
    var v := Apply(kind, u, Begin);
    LoopRuns(kind, v);
    hide Handle, Reaches;
    var t := Handle(kind, v.buf);
    Join(kind, s, v, Net(s.todo[n..], t.rest, 0, Idle, t.exit.Destroys(), s.handled + t.handled));
  }

  /** One chunk with everything. */
  lemma OneChunk(kind: Bytes -> Kind, b: Bytes) returns (end: Net)
    ensures Reaches(kind, Start(b), end) && Finished(end) && Outcome(end) == Ending(Handle(kind, b))
  {
    end := Start(b);
    if b == [] {
      Here(kind, end);
    } else {
      ChunkRuns(kind, end, |b|);
      assert [] + b[..|b|] == b && b[|b|..] == [];
      hide Handle, Reaches;
      var t := Handle(kind, b);
      assert [] + t.handled == t.handled;
      end := Net([], t.rest, 0, Idle, t.exit.Destroys(), t.handled);
    }
  }

  /** One chunk after the other. */
  lemma TwoChunks(kind: Bytes -> Kind, s: Bytes, u: Bytes) returns (end: Net)
    requires s != [] && u != [] && !Handle(kind, s).exit.Destroys()
    ensures Reaches(kind, Start(s + u), end) && Finished(end)
    ensures var t := Handle(kind, s);
      Outcome(end) == Ending(Then(t.handled, Handle(kind, t.rest + u)))
  {
    var start, t := Start(s + u), Handle(kind, s);
    var v := Handle(kind, t.rest + u);
    var mid := Net(u, t.rest, 0, Idle, false, t.handled);
    end := Net([], v.rest, 0, Idle, v.exit.Destroys(), t.handled + v.handled);
    FirstChunk(kind, s, u);
    LastChunk(kind, mid);
    hide Handle, Reaches;
    Join(kind, start, mid, end);
  }

  lemma FirstChunk(kind: Bytes -> Kind, s: Bytes, u: Bytes)
    requires s != []
    ensures var t := Handle(kind, s);
      Reaches(kind, Start(s + u), Net(u, t.rest, 0, Idle, t.exit.Destroys(), t.handled))
  {
    assert (s + u)[..|s|] == s && (s + u)[|s|..] == u && [] + s == s;
    assert [] + Handle(kind, s).handled == Handle(kind, s).handled;
    hide Handle, Reaches;
    ChunkRuns(kind, Start(s + u), |s|);
  }

  lemma LastChunk(kind: Bytes -> Kind, s: Net)
    requires s.phase.Idle? && s.queued == 0 && !s.destroyed && s.todo != []
    ensures var t := Handle(kind, s.buf + s.todo);
      Reaches(kind, s, Net([], t.rest, 0, Idle, t.exit.Destroys(), s.handled + t.handled))
  {
    assert s.todo[..|s.todo|] == s.todo && s.todo[|s.todo|..] == [];
    hide Handle, Reaches;
    ChunkRuns(kind, s, |s.todo|);
  }

  // --- When the way it is delivered does not matter ---

  /** None of these frames is ever dispatched. */
  ghost predicate Quiet(kind: Bytes -> Kind, frames: seq<Bytes>) { forall p :: p in frames ==> !kind(p).Dispatched() }

  ghost predicate Waits(kind: Bytes -> Kind, handled: seq<Bytes>) { exists p :: p in handled && kind(p).Invoke? }

  /** A shutdown or a falsy frame has nothing to go on with behind it; and behind a
      payload that is no JSON there is nothing to dispatch, unless no handler was
      waited for before it. */
  ghost predicate Good(kind: Bytes -> Kind, t: Turn, waited: bool) {
    match t.exit
    case Stopped => Short(t.rest)
    case BadJson => (waited || Waits(kind, t.handled)) ==> Quiet(kind, ParseAll(t.rest).frames)
    case _ => true
  }

  ghost predicate Steady(kind: Bytes -> Kind, b: Bytes) { Good(kind, Handle(kind, b), false) }

  // --- By position ---

  ghost predicate GoodFrames(kind: Bytes -> Kind, all: Parsed) {
    forall i :: 0 <= i < |all.frames| && LeavesAt(kind, all.frames, i) ==>
      if kind(all.frames[i]).NotJson? then
        || (forall j :: 0 <= j < i ==> kind(all.frames[j]).Plain?)
        || (forall j :: i < j < |all.frames| ==> !kind(all.frames[j]).Dispatched())
      else i == |all.frames| - 1 && !Parse(all.rest).BadLength?
  }

  lemma OneLeaves(kind: Bytes -> Kind, frames: seq<Bytes>, i: nat, k: nat)
    requires i < |frames| && k < |frames| && LeavesAt(kind, frames, i) && LeavesAt(kind, frames, k)
    ensures i == k
  {
  }

  /** The same by position, about the frames alone: at the first frame that is not
      simply answered, a shutdown or falsy value must come last, with no bad length
      behind it; if it is no JSON, no invoke comes before it or nothing that would
      be dispatched behind it. */
  lemma SteadyIff(kind: Bytes -> Kind, b: Bytes)
    ensures Steady(kind, b) <==> GoodFrames(kind, ParseAll(b))
  {
    var i := HandleMeans(kind, b);
    var t, all := Handle(kind, b), ParseAll(b);
    hide Handle, ParseAll, Parse;
    if i == |all.frames| {
      assert forall k :: 0 <= k < |all.frames| ==> !LeavesAt(kind, all.frames, k);
    } else {
      forall k | 0 <= k < |all.frames| && LeavesAt(kind, all.frames, k)
          ensures k == i { OneLeaves(kind, all.frames, i, k); }
      ShortMeans(t.rest);
      assert all.frames[i + 1..] == [] <==> i == |all.frames| - 1;
      if t.exit.BadJson? { WaitsByPosition(kind, all.frames, i); }
    }
  }

  lemma WaitsByPosition(kind: Bytes -> Kind, frames: seq<Bytes>, i: nat)
    requires i < |frames| && LeavesAt(kind, frames, i)
    ensures Waits(kind, frames[..i] + []) <==> !forall j :: 0 <= j < i ==> kind(frames[j]).Plain?
    ensures Quiet(kind, frames[i + 1..]) <==> forall j :: i < j < |frames| ==> !kind(frames[j]).Dispatched()
  {
    assert frames[..i] + [] == frames[..i];
    if j :| 0 <= j < i && !kind(frames[j]).Plain? {
      assert frames[j] == frames[..i][j];
      assert frames[j] in frames[..i];
    }
    if Quiet(kind, frames[i + 1..]) {
      forall j | i < j < |frames| ensures !kind(frames[j]).Dispatched() {
        assert frames[j] == frames[i + 1..][j - i - 1];
        assert frames[j] in frames[i + 1..];
      }
    }
  }

  // --- Steady streams ---

  lemma FirstPart(s: Bytes, u: Bytes)
    requires Short(s + u)
    ensures Short(s)
  {
    ParseExtends(s, u);
  }

  /** What has arrived of a quiet stream is quiet. */
  lemma QuietPart(kind: Bytes -> Kind, s: Bytes, u: Bytes)
    requires Quiet(kind, ParseAll(s + u).frames)
    ensures Quiet(kind, ParseAll(s).frames)
  {
    ParseInPieces(s, u);
    hide ParseAll;
  }

  function Prepend(handled: seq<Bytes>, s: Session): Session {
    match s
    case Alive(more, rest) => Alive(handled + more, rest)
    case Destroyed(more) => Destroyed(handled + more)
  }

  /** As long as the socket lives: one loop over all that is still to come would end
      the session as announced; nothing has been left behind that a later chunk
      could uncover; and a loop that could still be upset by loops queued behind it
      has none. */
  ghost predicate OnCourse(kind: Bytes -> Kind, s: Net, end: Session) {
    var t := Handle(kind, s.buf + s.todo);
    && Prepend(s.handled, Ending(t)) == end
    && Good(kind, t, s.phase.Awaiting? || s.queued > (if s.phase.Idle? then 1 else 0))
    && (s.phase.Idle? && s.queued == 0 ==> Short(s.buf))
  }

  ghost predicate Settled(kind: Bytes -> Kind, s: Net, end: Session) {
    && Destroyed(s.handled) == end
    && (Quiet(kind, ParseAll(s.buf).frames) || (s.phase.Idle? && s.queued == 0))
    && !s.phase.Awaiting?
  }

  ghost predicate Inv(kind: Bytes -> Kind, s: Net, end: Session) {
    if s.destroyed then Settled(kind, s, end) else OnCourse(kind, s, end)
  }

  lemma DataKeeps(kind: Bytes -> Kind, s: Net, n: nat, end: Session)
    requires Inv(kind, s, end) && Enabled(s, Data(n))
    ensures Inv(kind, Apply(kind, s, Data(n)), end)
  {
    assert (s.buf + s.todo[..n]) + s.todo[n..] == s.buf + s.todo;
  }

  lemma FrameKeeps(kind: Bytes -> Kind, s: Net, end: Session)
    requires OnCourse(kind, s, end) && s.phase.Running? && !s.destroyed && Parse(s.buf).Frame?
    ensures Inv(kind, LookAt(kind, s), end)
  {
    var p, rest := Parse(s.buf).payload, Parse(s.buf).rest;
    ParseExtends(s.buf, s.todo);
    var b, t := s.buf + s.todo, Handle(kind, s.buf + s.todo);
    assert Parse(b) == Frame(p, rest + s.todo);
    match kind(p)
    case Invoke => GoesOnKeeps(kind, s, p, rest, end);
    case Plain => GoesOnKeeps(kind, s, p, rest, end);
    case NotJson =>
      assert t == Turn([], rest + s.todo, BadJson);
      hide Handle, Parse, ParseAll;
      assert s.handled + [] == s.handled;
      if Quiet(kind, ParseAll(t.rest).frames) { QuietPart(kind, rest, s.todo); }
    case _ =>
      assert t == Turn(if kind(p).Shutdown? then [p] else [], rest + s.todo, Stopped);
      hide Handle, Parse, ParseAll;
      FirstPart(rest, s.todo);
      ShortIsIdle(kind, rest + s.todo);
      assert (s.handled + t.handled) + [] == s.handled + t.handled;
      assert s.handled + [] == s.handled;
  }

  lemma GoesOnKeeps(kind: Bytes -> Kind, s: Net, p: Bytes, rest: Bytes, end: Session)
    requires OnCourse(kind, s, end) && s.phase.Running? && kind(p).GoesOn() &&
        Parse(s.buf + s.todo) == Frame(p, rest + s.todo)
    ensures OnCourse(kind, Dispatch(kind, s, p, rest), end)
  {
    var t, next := Handle(kind, s.buf + s.todo), Handle(kind, rest + s.todo);
    assert t == Then([p], next);
    hide Handle, Parse, ParseAll, Quiet, Short;
    assert s.handled + ([p] + next.handled) == (s.handled + [p]) + next.handled;
    assert p in t.handled;
    if Waits(kind, next.handled) {
      var q :| q in next.handled && kind(q).Invoke?;
      assert q in t.handled;
    }
  }

  lemma NoFrameKeeps(kind: Bytes -> Kind, s: Net, end: Session)
    requires OnCourse(kind, s, end) && s.phase.Running? && !s.destroyed && !Parse(s.buf).Frame?
    ensures Inv(kind, LookAt(kind, s), end)
  {
    ParseExtends(s.buf, s.todo);
    if Parse(s.buf).BadLength? {
      assert Handle(kind, s.buf + s.todo) == Turn([], s.buf + s.todo, WrongLength);
      assert s.handled + [] == s.handled;
      assert ParseAll(s.buf).frames == [];
    } else {
      hide Handle, ParseAll, Quiet;
    }
  }

  /** Loops that were queued behind a destroyed socket find nothing to dispatch. */
  lemma SettledKeeps(kind: Bytes -> Kind, s: Net, end: Session)
    requires Settled(kind, s, end) && s.destroyed && s.phase.Running?
    ensures Settled(kind, LookAt(kind, s), end)
  {
    if Parse(s.buf).Frame? {
      var p, rest := Parse(s.buf).payload, Parse(s.buf).rest;
      assert ParseAll(s.buf).frames == [p] + ParseAll(rest).frames;
      hide Parse, ParseAll;
      assert p in [p] + ParseAll(rest).frames;
      assert forall q :: q in ParseAll(rest).frames ==> q in [p] + ParseAll(rest).frames;
    }
  }

  lemma StepKeeps(kind: Bytes -> Kind, s: Net, a: Step, end: Session)
    requires Inv(kind, s, end) && Enabled(s, a)
    ensures Inv(kind, Apply(kind, s, a), end)
  {
    match a
    case Data(n) => DataKeeps(kind, s, n, end);
    case Look =>
      hide OnCourse, Settled, LookAt;
      if s.destroyed {
        SettledKeeps(kind, s, end);
        DestroyedStays(kind, s);
      } else if Parse(s.buf).Frame? {
        FrameKeeps(kind, s, end);
      } else {
        NoFrameKeeps(kind, s, end);
      }
    case _ => hide Handle, ParseAll, Parse, Quiet, Short;
  }

  lemma DestroyedStays(kind: Bytes -> Kind, s: Net)
    requires s.destroyed
    ensures LookAt(kind, s).destroyed
  {
  }

  lemma {:induction false} PathKeeps(kind: Bytes -> Kind, s: Net, acts: seq<Step>, t: Net, end: Session)
    requires Inv(kind, s, end) && Path(kind, s, acts, t)
    ensures Inv(kind, t, end)
    decreases |acts|
  {
    hide Inv, Apply, Enabled;
    if acts != [] {
      StepKeeps(kind, s, acts[0], end);
      PathKeeps(kind, Apply(kind, s, acts[0]), acts[1..], t, end);
    }
  }

  lemma StartsOnCourse(kind: Bytes -> Kind, b: Bytes)
    requires Steady(kind, b)
    ensures Inv(kind, Start(b), Ending(Handle(kind, b)))
  {
    assert [] + b == b && Short([]);
    hide Handle, ParseAll, Parse;
    assert [] + Handle(kind, b).handled == Handle(kind, b).handled;
  }

  lemma EndsOnCourse(kind: Bytes -> Kind, t: Net, end: Session)
    requires Inv(kind, t, end) && Finished(t)
    ensures Outcome(t) == end
  {
    if !t.destroyed {
      assert t.buf + t.todo == t.buf && t.handled + [] == t.handled;
      ShortIsIdle(kind, t.buf);
    }
  }

  lemma SteadyEnds(kind: Bytes -> Kind, b: Bytes)
    requires Steady(kind, b)
    ensures AlwaysEnds(kind, b, Ending(Handle(kind, b)))
  {
    var end := Ending(Handle(kind, b));
    StartsOnCourse(kind, b);
    hide Inv, Handle, Steady;
    forall t | Reaches(kind, Start(b), t) && Finished(t) ensures Outcome(t) == end {
      var acts :| Path(kind, Start(b), acts, t);
      PathKeeps(kind, Start(b), acts, t, end);
      EndsOnCourse(kind, t, end);
    }
  }

  // --- Unsteady streams ---

  /** A stream with a frame in front. */
  lemma FrontFrame(kind: Bytes -> Kind, b: Bytes)
    requires Parse(b).Frame?
    ensures var p, rest := Parse(b).payload, Parse(b).rest;
      Sendable(p) && b == Encode(p) + rest && Handle(kind, b) == HandleFrame(kind, p, rest)
  {
    EncodeParse(b);
    HandleEncoded(kind, Parse(b).payload, Parse(b).rest);
  }

  lemma StopGrows(kind: Bytes -> Kind, p: Bytes, s: Bytes, t: Turn)
    requires Sendable(p) && kind(p).GoesOn() && Handle(kind, s) == Turn(t.handled, [], Stopped)
    ensures Encode(p) + s != [] && (Encode(p) + s) + t.rest == Encode(p) + (s + t.rest)
    ensures Handle(kind, Encode(p) + s) == Turn([p] + t.handled, [], Stopped)
  {
    FrameAlone(p, s);
    HandleEncoded(kind, p, s);
    hide Encode, Parse, Handle;
  }

  lemma StopsHere(kind: Bytes -> Kind, p: Bytes)
    requires Sendable(p) && (kind(p).Shutdown? || kind(p).Falsy?)
    ensures Encode(p) != [] && Handle(kind, Encode(p)) == Turn(if kind(p).Shutdown? then [p] else [], [], Stopped)
  {
    FrameAlone(p, []);
    HandleEncoded(kind, p, []);
    hide Encode, Parse, Handle;
    assert Encode(p) + [] == Encode(p);
  }

  /** The stream up to the shutdown or falsy frame at which the loop stops. */
  lemma {:induction false} StopCut(kind: Bytes -> Kind, b: Bytes) returns (s: Bytes)
    requires Handle(kind, b).exit.Stopped?
    ensures var t := Handle(kind, b);
      s != [] && s + t.rest == b && Handle(kind, s) == Turn(t.handled, [], Stopped)
    decreases |b|
  {
    assert Parse(b).Frame?;
    var p, rest := Parse(b).payload, Parse(b).rest;
    assert |rest| < |b|;
    FrontFrame(kind, b);
    hide Handle, Parse, Encode;
    if kind(p).GoesOn() {
      var s1 := StopCut(kind, rest);
      StopGrows(kind, p, s1, Handle(kind, rest));
      s := Encode(p) + s1;
    } else {
      StopsHere(kind, p);
      s := Encode(p);
    }
  }

  /** A stop in the middle: two chunks that are cut there give more than one. */
  lemma StopShows(kind: Bytes -> Kind, b: Bytes) returns (end: Net)
    requires Handle(kind, b).exit.Stopped? && !Short(Handle(kind, b).rest)
    ensures Reaches(kind, Start(b), end) && Finished(end) && Outcome(end) != Ending(Handle(kind, b))
  {
    var s := StopCut(kind, b);
    var u := Handle(kind, b).rest;
    Progresses(kind, u);
    assert Short([]);
    hide Handle, Reaches, Short;
    end := TwoChunks(kind, s, u);
    assert [] + u == u;
  }

  /** The stream up to the first invoke, and a loop that waits for its handler. */
  lemma {:induction false} FirstWait(kind: Bytes -> Kind, b: Bytes, before: seq<Bytes>)
      returns (s: Bytes, r: Bytes, h: seq<Bytes>)
    requires Waits(kind, Handle(kind, b).handled)
    ensures s + r == b && s != [] && Handle(kind, b) == Then(h, Handle(kind, r))
    ensures Reaches(kind, Net(r, s, 0, Running, false, before), Net(r, [], 0, Awaiting, false, before + h))
    decreases |b|
  {
    assert Parse(b).Frame?;
    var p, rest := Parse(b).payload, Parse(b).rest;
    assert |rest| < |b|;
    FrontFrame(kind, b);
    if !kind(p).Invoke? { WaitsLater(kind, b); }
    hide Handle, Parse, Encode, Reaches, Waits;
    if kind(p).Invoke? {
      s, r, h := Encode(p), rest, [p];
      LookAndWait(kind, p, r, before);
    } else {
      var s1, h1;
      s1, r, h1 := FirstWait(kind, rest, before + [p]);
      s, h := Encode(p) + s1, [p] + h1;
      LookThenWait(kind, p, s1, r, h1, before);
      ThenTwice([p], h1, Handle(kind, r));
    }
  }

  lemma WaitsLater(kind: Bytes -> Kind, b: Bytes)
    requires Waits(kind, Handle(kind, b).handled) && !kind(Parse(b).payload).Invoke?
    ensures var p, rest := Parse(b).payload, Parse(b).rest;
      Handle(kind, b) == Then([p], Handle(kind, rest)) && kind(p).Plain? && Waits(kind, Handle(kind, rest).handled)
  {
    var p, rest := Parse(b).payload, Parse(b).rest;
    hide Parse;
    var q :| q in Handle(kind, b).handled && kind(q).Invoke?;
    assert q in Handle(kind, rest).handled;
  }

  lemma LookAndWait(kind: Bytes -> Kind, p: Bytes, r: Bytes, before: seq<Bytes>)
    requires Sendable(p) && kind(p).Invoke?
    ensures Encode(p) != []
    ensures Reaches(kind, Net(r, Encode(p), 0, Running, false, before), Net(r, [], 0, Awaiting, false, before + [p]))
  {
    FrameAlone(p, []);
    assert Encode(p) + [] == Encode(p);
    hide Parse, Encode, Reaches;
    LookOnce(kind, Net(r, Encode(p), 0, Running, false, before), p, []);
  }

  lemma LookThenWait(kind: Bytes -> Kind, p: Bytes, s1: Bytes, r: Bytes, h1: seq<Bytes>, before: seq<Bytes>)
    requires Sendable(p) && kind(p).Plain?
    requires Reaches(kind, Net(r, s1, 0, Running, false, before + [p]),
        Net(r, [], 0, Awaiting, false, (before + [p]) + h1))
    ensures Encode(p) + s1 != [] && (Encode(p) + s1) + r == Encode(p) + (s1 + r)
    ensures Reaches(kind, Net(r, Encode(p) + s1, 0, Running, false, before),
        Net(r, [], 0, Awaiting, false, before + ([p] + h1)))
  {
    FrameAlone(p, s1);
    hide Parse, Encode, Reaches;
    var start := Net(r, Encode(p) + s1, 0, Running, false, before);
    LookOnce(kind, start, p, s1);
    assert (before + [p]) + h1 == before + ([p] + h1);
    Join(kind, start, Net(r, s1, 0, Running, false, before + [p]), Net(r, [], 0, Awaiting, false, before + ([p] + h1)));
  }

  lemma LookOnce(kind: Bytes -> Kind, s: Net, p: Bytes, rest: Bytes)
    requires s.phase.Running? && Parse(s.buf) == Frame(p, rest) && kind(p).GoesOn()
    ensures Reaches(kind, s, Dispatch(kind, s, p, rest))
  {
    Here(kind, s);
    hide Reaches, Parse;
    Steps(kind, s, s, Look);
  }

  /** While it waits, everything else arrives byte by byte. */
  lemma {:induction false} AllArrives(kind: Bytes -> Kind, s: Net)
    requires s.phase.Awaiting? && !s.destroyed
    ensures Reaches(kind, s, s.(todo := [], buf := s.buf + s.todo, queued := s.queued + |s.todo|))
    decreases |s.todo|
  {
    Here(kind, s);
    hide Reaches;
    var end := s.(todo := [], buf := s.buf + s.todo, queued := s.queued + |s.todo|);
    if s.todo == [] {
      assert s.buf + s.todo == s.buf;
    } else {
      Steps(kind, s, s, Data(1));
      var t := Apply(kind, s, Data(1));
      AllArrives(kind, t);
      assert t.buf + t.todo == s.buf + s.todo;
      Join(kind, s, t, end);
    }
  }

  lemma NextLoop(kind: Bytes -> Kind, s: Net) returns (t: Net)
    requires s.phase.Idle? && s.destroyed && s.queued > 0
    ensures var turn := Handle(kind, s.buf);
      && Reaches(kind, s, t)
      && t == s.(buf := turn.rest, queued := s.queued - 1, handled := s.handled + turn.handled)
  {
    Here(kind, s);
    Steps(kind, s, s, Begin);
    var u := Apply(kind, s, Begin);
    LoopRuns(kind, u);
    hide Handle, Reaches;
    var turn := Handle(kind, s.buf);
    t := s.(buf := turn.rest, queued := s.queued - 1, handled := s.handled + turn.handled);
    Join(kind, s, u, t);
  }

  /** The loops queued behind a destroyed socket, if nothing arrives any more: when
      there are enough of them, they get at whatever can be dispatched. */
  lemma {:induction false} Drain(kind: Bytes -> Kind, s: Net) returns (t: Net)
    requires s.phase.Idle? && s.destroyed
    ensures Reaches(kind, s, t) && Finished(t) && t.destroyed && |t.handled| >= |s.handled|
    ensures |s.buf| <= s.queued && !Quiet(kind, ParseAll(s.buf).frames) ==> |t.handled| > |s.handled|
    decreases s.queued
  {
    t := s;
    Here(kind, s);
    if s.queued > 0 {
      var u := NextLoop(kind, s);
      if !Quiet(kind, ParseAll(s.buf).frames) && u.handled == s.handled { SilentLoop(kind, s.buf); }
      hide Handle, Parse, ParseAll, Quiet, Reaches;
      t := Drain(kind, u);
      Join(kind, s, u, t);
    }
  }

  lemma SilentLoop(kind: Bytes -> Kind, b: Bytes)
    requires !Quiet(kind, ParseAll(b).frames) && Handle(kind, b).handled == []
    ensures |Handle(kind, b).rest| < |b| && !Quiet(kind, ParseAll(Handle(kind, b).rest).frames)
  {
    var p, rest := Parse(b).payload, Parse(b).rest;
    assert ParseAll(b).frames == [p] + ParseAll(rest).frames;
    hide Parse, ParseAll;
    assert !kind(p).Dispatched();
  }

  /** A payload that is no JSON behind an invoke: chunks that arrive while the handler
      is waited for bring loops that get past it. */
  lemma BadJsonShows(kind: Bytes -> Kind, b: Bytes) returns (end: Net)
    requires var t := Handle(kind, b);
      t.exit.BadJson? && Waits(kind, t.handled) && !Quiet(kind, ParseAll(t.rest).frames)
    ensures Reaches(kind, Start(b), end) && Finished(end) && Outcome(end) != Ending(Handle(kind, b))
  {
    var s, r, h := FirstWait(kind, b, []);
    RestIsPart(kind, r);
    hide Handle, ParseAll, Quiet, Reaches, Waits;
    var t := Handle(kind, r);
    var waiting := Net(r, [], 0, Awaiting, false, h);
    FirstArrives(kind, b, s, r, h);
    var arrived := Net([], r, |r|, Awaiting, false, h);
    AllArrives(kind, waiting);
    assert [] + r == r;
    var stopped := Net([], t.rest, |r|, Idle, true, h + t.handled);
    ResumeRuns(kind, arrived);
    end := Drain(kind, stopped);
    Join(kind, Start(b), waiting, arrived);
    Join(kind, Start(b), arrived, stopped);
    Join(kind, Start(b), stopped, end);
  }

  lemma FirstArrives(kind: Bytes -> Kind, b: Bytes, s: Bytes, r: Bytes, h: seq<Bytes>)
    requires s + r == b && s != []
    requires Reaches(kind, Net(r, s, 0, Running, false, []), Net(r, [], 0, Awaiting, false, [] + h))
    ensures Reaches(kind, Start(b), Net(r, [], 0, Awaiting, false, h))
  {
    Here(kind, Start(b));
    hide Reaches;
    Steps(kind, Start(b), Start(b), Data(|s|));
    assert b[|s|..] == r && b[..|s|] == s && [] + s == s && [] + h == h;
    Steps(kind, Start(b), Net(r, s, 1, Idle, false, []), Begin);
    Join(kind, Start(b), Net(r, s, 0, Running, false, []), Net(r, [], 0, Awaiting, false, h));
  }

  lemma ResumeRuns(kind: Bytes -> Kind, s: Net)
    requires s.phase.Awaiting?
    ensures var t := Handle(kind, s.buf);
      Reaches(kind, s, After(s, t))
  {
    Here(kind, s);
    hide Handle, Reaches;
    Steps(kind, s, s, Resume);
    var u := s.(phase := Running);
    LoopRuns(kind, u);
    var t := Handle(kind, s.buf);
    Join(kind, s, u, After(s, t));
  }

  // --- Main result ---

  /** What the SDK dispatches, what it keeps and whether it gives up depends only on
      the bytes, and not on how they are split and when they arrive, if and only if
      the stream is steady; and then it is what one loop over all of them does. */
  lemma SplitIsIrrelevantIff(kind: Bytes -> Kind, b: Bytes)
    ensures (exists session :: AlwaysEnds(kind, b, session)) <==> Steady(kind, b)
    ensures Steady(kind, b) ==> AlwaysEnds(kind, b, Ending(Handle(kind, b)))
  {
    var t := Handle(kind, b);
    if Steady(kind, b) {
      SteadyEnds(kind, b);
    } else {
      var one := OneChunk(kind, b);
      var other;
      if t.exit.Stopped? { other := StopShows(kind, b); } else { other := BadJsonShows(kind, b); }
      hide Handle, Reaches, Steady;
      forall session ensures !AlwaysEnds(kind, b, session) {
        assert AlwaysEnds(kind, b, session) ==> Outcome(one) == session && Outcome(other) == session;
      }
    }
  }

  /** A frame behind a shutdown: in one chunk it stays in the buffer, in two it is
      dispatched. */
  lemma ShutdownThenFrame(kind: Bytes -> Kind, p: Bytes, q: Bytes) returns (one: Net, two: Net)
    requires Sendable(p) && Sendable(q) && kind(p).Shutdown? && kind(q).GoesOn()
    ensures var b := Encode(p) + Encode(q);
      && Reaches(kind, Start(b), one) && Finished(one) && Outcome(one) == Alive([p], Encode(q))
      && Reaches(kind, Start(b), two) && Finished(two) && Outcome(two) == Alive([p, q], [])
  {
    var s, u := Encode(p), Encode(q);
    FrameAlone(p, []);
    FrameAlone(q, []);
    HandleEncoded(kind, p, u);
    HandleOne(kind, p);
    HandleOne(kind, q);
    hide Encode, Parse, Handle, Reaches;
    assert s + [] == s && u + [] == u && [] + u == u;
    one := OneChunk(kind, s + u);
    two := TwoChunks(kind, s, u);
    assert [p] + [q] == [p, q];
  }

  /** An invoke, a payload that is no JSON, and a frame that would be dispatched: in
      one chunk it is not.  It is if the last two arrive while the handler works. */
  lemma BadThenFrame(kind: Bytes -> Kind, a: Bytes, n: Bytes, q: Bytes) returns (one: Net, two: Net)
    requires Sendable(a) && Sendable(n) && Sendable(q) && kind(a).Invoke? && kind(n).NotJson? && kind(q).GoesOn()
    ensures var b := Encode(a) + (Encode(n) + Encode(q));
      && Reaches(kind, Start(b), one) && Finished(one) && Outcome(one) == Destroyed([a])
      && Reaches(kind, Start(b), two) && Finished(two) && Outcome(two) == Destroyed([a, q])
  {
    var s, m, u := Encode(a), Encode(n), Encode(q);
    var r := m + u;
    FrameAlone(a, []);
    HandleEncoded(kind, a, r);
    HandleEncoded(kind, n, u);
    HandleOne(kind, q);
    hide Encode, Parse, Reaches, Handle;
    assert s + [] == s;
    LookOnce(kind, Net(r, s, 0, Running, false, []), a, []);
    one := OneChunk(kind, s + r);
    assert [a] + [] == [a] && [] + [a] == [a];
    FirstArrives(kind, s + r, s, r, [a]);
    two := Overlap(kind, s + r, r, u, a, q);
  }

  lemma Overlap(kind: Bytes -> Kind, b: Bytes, r: Bytes, u: Bytes, a: Bytes, q: Bytes) returns (two: Net)
    requires Reaches(kind, Start(b), Net(r, [], 0, Awaiting, false, [a])) && r != []
    requires Handle(kind, r) == Turn([], u, BadJson) && Handle(kind, u) == Turn([q], [], Starved)
    ensures Reaches(kind, Start(b), two) && Finished(two) && Outcome(two) == Destroyed([a, q])
  {
    hide Handle, Reaches;
    var waiting := Net(r, [], 0, Awaiting, false, [a]);
    Steps(kind, Start(b), waiting, Data(|r|));
    assert r[|r|..] == [] && [] + r[..|r|] == r;
    ResumeRuns(kind, Net([], r, 1, Awaiting, false, [a]));
    assert [a] + [] == [a] && [a] + [q] == [a, q];
    Join(kind, Start(b), Net([], r, 1, Awaiting, false, [a]), Net([], u, 1, Idle, true, [a]));
    two := NextLoop(kind, Net([], u, 1, Idle, true, [a]));
    Join(kind, Start(b), Net([], u, 1, Idle, true, [a]), two);
  }

  /** What a gateway writes that closes an instance last is steady: so the early exits
      of the loop do not show, and every message is dispatched, in order. */
  lemma {:induction false} GatewayTrafficIsSteady(c: M.Codec, kind: Bytes -> Kind, ms: seq<M.Message>)
    requires M.Lawful(c) && forall p :: kind(p) == KindOf(c, p)
    requires forall i :: 0 <= i < |ms| ==> M.Fits(c, ms[i])
    requires forall i :: 0 <= i < |ms| - 1 ==> !ms[i].kind.Shutdown?
    ensures Steady(kind, Traffic(c, ms)) && !Handle(kind, Traffic(c, ms)).exit.Destroys()
    ensures Handle(kind, Traffic(c, ms)).handled == seq(|ms|, i requires 0 <= i < |ms| => c.marshal(ms[i]))
    ensures Handle(kind, Traffic(c, ms)).rest == []
  {
    if ms != [] {
      var p, rest := c.marshal(ms[0]), Traffic(c, ms[1..]);
      assert c.unmarshal(p) == O.Some(ms[0]) && Sendable(p);
      HandleEncoded(kind, p, rest);
      if ms[0].kind.Shutdown? { assert ms[1..] == [] && Short([]); }
      hide Handle, Parse, ParseAll, Encode, Short, Quiet, Waits;
      GatewayTrafficIsSteady(c, kind, ms[1..]);
    }
  }

  function Traffic(c: M.Codec, ms: seq<M.Message>): Bytes
    requires forall i :: 0 <= i < |ms| ==> M.Fits(c, ms[i])
  {
    if ms == [] then [] else assert M.Fits(c, ms[0]); M.Wire(c, ms[0]) + Traffic(c, ms[1..])
  }

  // --- The connection as it is written ---

  /** Chunks that arrive while a handler is waited for, n of them if there are so
      many. */
  method Arrive(r: FrameReader, input: seq<Bytes>, i: nat, n: nat, kind: Bytes -> Kind, ghost s: Net)
      returns (j: nat, ghost t: Net)
    requires r.Valid() && i <= |input| && forall c :: c in input ==> c != []
    requires s.buf == r.Buffer() && s.todo == Flat(input[i..]) && s.phase.Awaiting? && (s.destroyed ==> n == 0)
    modifies r
    ensures r.Valid() && i <= j <= |input| && Reaches(kind, s, t)
    ensures t == s.(buf := r.Buffer(), todo := Flat(input[j..]), queued := s.queued + j - i)
    ensures |t.buf| + |t.todo| == |s.buf| + |s.todo|
  {
    j, t := i, s;
    Here(kind, s);
    hide Flat, Reaches;
    while j < |input| && j - i < n
      invariant r.Valid() && i <= j <= |input| && Reaches(kind, s, t)
      invariant t == s.(buf := r.Buffer(), todo := Flat(input[j..]), queued := s.queued + j - i)
      invariant |t.buf| + |t.todo| == |s.buf| + |s.todo|
    {
      FlatStep(input, j);
      assert input[j] in input;
      Steps(kind, s, t, Data(|input[j]|));
      t := Apply(kind, t, Data(|input[j]|));
      r.Push(input[j]);
      j := j + 1;
    }
  }

  lemma FlatStep(input: seq<Bytes>, i: nat)
    requires i < |input|
    ensures var c, all := input[i], Flat(input[i..]);
      |c| <= |all| && all[..|c|] == c && all[|c|..] == Flat(input[i + 1..])
  {
    assert input[i..][0] == input[i] && input[i..][1..] == input[i + 1..];
  }

  /** One loop, with chunks that arrive while it waits. */
  method Loop(r: FrameReader, input: seq<Bytes>, i: nat, destroyed: bool, arrivals: nat -> nat, kind: Bytes -> Kind,
      ghost s: Net)
    returns (more: seq<Bytes>, j: nat, threw: bool, ghost t: Net)
    requires r.Valid() && i <= |input| && forall c :: c in input ==> c != []
    requires s.buf == r.Buffer() && s.todo == Flat(input[i..]) && s.phase.Running? && s.destroyed == destroyed
    modifies r
    ensures r.Valid() && i <= j <= |input| && Reaches(kind, s, t)
    ensures t == Net(Flat(input[j..]), r.Buffer(), s.queued + j - i, Idle, s.destroyed || threw, s.handled + more)
  {
    more, j, threw, t := [], i, false, s;
    Here(kind, s);
    assert s.handled + [] == s.handled;
    hide Flat, Reaches, LookAt;
    var going := true;
    while going
      invariant r.Valid() && i <= j <= |input| && Reaches(kind, s, t)
      invariant t == Net(Flat(input[j..]), r.Buffer(), s.queued + j - i, if going then Running else Idle,
          s.destroyed || threw, s.handled + more)
      invariant going ==> !threw
      decreases going, |t.buf| + |t.todo|
    {
      Steps(kind, s, t, Look);
      LookMeans(kind, t);
      t := LookAt(kind, t);
      var out := r.Next();
      if out.Got? {
        var k := kind(out.payload);
        if k.Dispatched() {
          assert (s.handled + more) + [out.payload] == s.handled + (more + [out.payload]);
          more := more + [out.payload];
        }
        if k.Invoke? {
          ghost var waiting := t;
          j, t := Arrive(r, input, j, if destroyed then 0 else arrivals(|more|), kind, t);
          Join(kind, s, waiting, t);
          Steps(kind, s, t, Resume);
          t := Apply(kind, t, Resume);
        }
        going, threw := k.GoesOn(), k.NotJson?;
      } else {
        going, threw := false, out.Throw?;
      }
    }
  }

  lemma LookMeans(kind: Bytes -> Kind, s: Net)
    ensures var t := LookAt(kind, s);
      match Parse(s.buf)
      case Frame(p, rest) =>
        var k := kind(p);
        && t.todo == s.todo && t.queued == s.queued && t.buf == rest
        && t.handled == s.handled + (if k.Dispatched() then [p] else [])
        && t.phase == (if k.Invoke? then Awaiting else if k.Plain? then s.phase else Idle)
        && t.destroyed == (s.destroyed || k.NotJson?)
      case BadLength(_) => t == s.(phase := Idle, destroyed := true)
      case _ => t == s.(phase := Idle)
  {
  }

  /** A connection: a loop for every chunk, and `arrivals` says how many chunks come in
      while a handler works.  It ends as some run does; and if the stream is steady,
      as one loop over all the bytes would end. */
  method OnAllData(r: FrameReader, input: seq<Bytes>, arrivals: nat -> nat, kind: Bytes -> Kind)
    returns (handled: seq<Bytes>, destroyed: bool, ghost t: Net)
    requires r.Valid() && r.Buffer() == [] && forall c :: c in input ==> c != []
    modifies r
    ensures r.Valid() && Reaches(kind, Start(Flat(input)), t) && Finished(t)
    ensures t.handled == handled && t.destroyed == destroyed && t.buf == r.Buffer()
    ensures Steady(kind, Flat(input)) ==>
      Ending(Handle(kind, Flat(input))) == if destroyed then Destroyed(handled) else Alive(handled, r.Buffer())
  {
    ghost var start := Start(Flat(input));
    handled, destroyed, t := [], false, start;
    var i, queued := 0, 0;
    assert input[0..] == input && Flat(input[|input|..]) == [];
    Here(kind, start);
    SplitIsIrrelevantIff(kind, Flat(input));
    hide Flat, Reaches, Handle, Steady;
    while queued > 0 || (i < |input| && !destroyed)
      invariant r.Valid() && i <= |input| && queued >= 0 && Reaches(kind, start, t)
      invariant t == Net(Flat(input[i..]), r.Buffer(), queued, Idle, destroyed, handled)
      decreases |input| - i, queued
    {
      if queued == 0 {
        FlatStep(input, i);
        assert input[i] in input;
        Steps(kind, start, t, Data(|input[i]|));
        t := Apply(kind, t, Data(|input[i]|));
        r.Push(input[i]);
        i, queued := i + 1, 1;
      }
      Steps(kind, start, t, Begin);
      t := Apply(kind, t, Begin);
      ghost var running := t;
      var more, j, threw;
      more, j, threw, t := Loop(r, input, i, destroyed, arrivals, kind, t);
      Join(kind, start, running, t);
      handled, destroyed, queued, i := handled + more, destroyed || threw, queued - 1 + (j - i), j;
    }
  }
}
