/** Node's chunk-fed parser: bytes are pushed as they arrive, whole frames are
    taken out as soon as they are complete. */
module NodeReader {
  import opened Framing
  import opened Sequences

  datatype Outcome = Got(payload: Bytes) | NeedMore | Throw(n: nat)

  /** What taking one frame from a buffer gives and leaves. */
  predicate NextIs(before: Bytes, out: Outcome, after: Bytes) {
    match Parse(before)
    case Frame(p, rest) => out == Got(p) && after == rest
    case BadLength(n) => out == Throw(n) && after == before
    case _ => out == NeedMore && after == before
  }

  class FrameReader {
    var chunks: seq<Bytes>
    var size: nat

    ghost function Buffer(): Bytes
      reads this
    {
      Flat(chunks)
    }

    ghost predicate Valid()
      reads this
    {
      size == |Buffer()|
    }

    constructor ()
      ensures Valid() && Buffer() == []
    {
      chunks, size := [], 0;
    }

    method Push(chunk: Bytes)
      requires Valid()
      modifies this
      ensures Valid() && Buffer() == old(Buffer()) + chunk
    {
      FlatSnoc(chunks, chunk);
      chunks := chunks + [chunk];
      size := size + |chunk|;
    }

    method Coalesce()
      requires Valid()
      modifies this`chunks
      ensures Valid() && Buffer() == old(Buffer())
      ensures old(chunks) != [] ==> chunks == [Buffer()]
    {
      if |chunks| > 1 {
        var merged := Concat(chunks);
        chunks := [merged];
      }
      assert |chunks| == 1 ==> Flat(chunks) == chunks[0] + Flat([]) == chunks[0];
    }

    /** Takes the frame at the front of the buffer, if there is a whole one. */
    method Next() returns (out: Outcome)
      requires Valid()
      modifies this
      ensures Valid()
      ensures NextIs(old(Buffer()), out, Buffer())
    {
      if size < HEADER_SIZE { return NeedMore; }
      Coalesce();
      var buf := chunks[0];
      var n := ReadUInt32(buf);
      if n == 0 || n > MAX_FRAME { return Throw(n); }
      if |buf| < HEADER_SIZE + n { return NeedMore; }
      chunks := [buf[HEADER_SIZE + n..]];
      size := |chunks[0]|;
      assert Flat(chunks) == chunks[0] + Flat([]) == chunks[0];
      return Got(buf[HEADER_SIZE..HEADER_SIZE + n]);
    }
  }

  /** Buffer.concat. */
  method Concat(chunks: seq<Bytes>) returns (b: Bytes)
    ensures b == Flat(chunks)
  {
    b := [];
    for i := 0 to |chunks|
      invariant b == Flat(chunks[..i])
    {
      assert chunks[..i + 1] == chunks[..i] + [chunks[i]];
      FlatSnoc(chunks[..i], chunks[i]);
      b := b + chunks[i];
    }
    assert chunks[..|chunks|] == chunks;
  }

  /** push and then next until it has no frame left: every frame that is complete by
      now.  `threw` says that next met a bad length. */
  method TakeFrames(r: FrameReader, chunk: Bytes) returns (frames: seq<Bytes>, threw: bool)
    requires r.Valid()
    modifies r
    ensures r.Valid()
    ensures var parsed := ParseAll(old(r.Buffer()) + chunk);
            frames == parsed.frames && r.Buffer() == parsed.rest && threw == Parse(parsed.rest).BadLength?
  {
    r.Push(chunk);
    ghost var all := r.Buffer();
    hide Flat;
    frames := [];
    var out := r.Next();
    ghost var before := all;
    while out.Got?
      invariant r.Valid()
      invariant ParseAll(all) == Parsed(frames + ParseAll(before).frames, ParseAll(before).rest)
      invariant NextIs(before, out, r.Buffer())
      decreases |before|
    {
      TakeOne(frames, before);
      frames := frames + [out.payload];
      before := r.Buffer();
      out := r.Next();
    }
    assert frames + [] == frames;
    threw := out.Throw?;
  }

  /** A whole stream, in whatever chunks it is delivered: the frames and the leftover
      depend on the bytes only. */
  method TakeAllFrames(r: FrameReader, input: seq<Bytes>) returns (frames: seq<Bytes>, threw: bool)
    requires r.Valid() && r.Buffer() == []
    modifies r
    ensures r.Valid()
    ensures frames == ParseAll(Flat(input)).frames
    ensures threw == Parse(ParseAll(Flat(input)).rest).BadLength?
    ensures !threw ==> r.Buffer() == ParseAll(Flat(input)).rest
  {
    frames, threw := [], false;
    NothingYet(input);
    hide Flat, Parse, ParseAll;
    for i := 0 to |input|
      invariant r.Valid()
      invariant ParseAll(Flat(input[..i])) == Parsed(frames, r.Buffer())
      invariant !Parse(r.Buffer()).BadLength?
    {
      OneChunkMore(input, i);
      var more;
      more, threw := TakeFrames(r, input[i]);
      frames := frames + more;
      if threw {
        LaterChunks(input, i + 1);
        return;
      }
    }
    assert input[..|input|] == input;
  }

  lemma NothingYet(input: seq<Bytes>)
    ensures ParseAll(Flat(input[..0])) == Parsed([], []) && Parse([]).ShortHeader?
  {
    assert Flat(input[..0]) == [];
  }

  lemma OneChunkMore(input: seq<Bytes>, i: nat)
    requires i < |input|
    ensures var before := ParseAll(Flat(input[..i]));
            var more := ParseAll(before.rest + input[i]);
            ParseAll(Flat(input[..i + 1])) == Parsed(before.frames + more.frames, more.rest)
  {
    assert input[..i + 1] == input[..i] + [input[i]];
    FlatSnoc(input[..i], input[i]);
    hide Flat, ParseAll;
    ParseInPieces(Flat(input[..i]), input[i]);
  }

  lemma {:induction false} LaterChunks(input: seq<Bytes>, i: nat)
    requires i <= |input| && Parse(ParseAll(Flat(input[..i])).rest).BadLength?
    ensures ParseAll(Flat(input)).frames == ParseAll(Flat(input[..i])).frames
    ensures Parse(ParseAll(Flat(input)).rest).BadLength?
  {
    hide Flat, Parse, ParseAll;
    BadStays(Flat(input[..i]), Flat(input[i..]));
    FlatConcat(input[..i], input[i..]);
    assert input == input[..i] + input[i..];
  }
}
