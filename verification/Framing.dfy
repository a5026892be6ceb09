/** The wire format: four bytes of big-endian length, then the payload. */
module Framing {
  type byte = x: int | 0 <= x < 256
  type Bytes = seq<byte>

  const HEADER_SIZE := 4
  const MAX_FRAME := 16 * 1024 * 1024

  function BigEndian(n: nat): (h: Bytes)
    requires n < 0x1_0000_0000
    ensures |h| == HEADER_SIZE
  {
    [n / 0x100_0000, n / 0x1_0000 % 256, n / 256 % 256, n % 256]
  }

  function ReadUInt32(h: Bytes): (n: nat)
    requires |h| >= HEADER_SIZE
    ensures n < 0x1_0000_0000
  {
    h[0] as int * 0x100_0000 + h[1] as int * 0x1_0000 + h[2] as int * 256 + h[3] as int
  }

  lemma LengthRoundTrip(n: nat)
    requires n < 0x1_0000_0000
    ensures ReadUInt32(BigEndian(n)) == n
  {
    var a, b, c := n / 256, n / 0x1_0000, n / 0x100_0000;
    assert n == a * 256 + n % 256;
    assert a == b * 256 + a % 256 by { assert b == a / 256; }
    assert b == c * 256 + b % 256 by { assert c == b / 256; }
  }

  lemma HeaderRoundTrip(h: Bytes)
    requires |h| == HEADER_SIZE
    ensures BigEndian(ReadUInt32(h)) == h
  {
    var n, a, b, c, d := ReadUInt32(h), h[0] as int, h[1] as int, h[2] as int, h[3] as int;
    var low, mid := a * 0x1_0000 + b * 256 + c, a * 256 + b;
    Digit(low, d);
    Digit(mid, c);
    Digit(a, b);
    assert n == low * 256 + d && low == mid * 256 + c && mid == a * 256 + b;
    DivTwice(n);
    assert n / 256 == low && n / 0x1_0000 == mid && n / 0x100_0000 == a;
  }

  /** The most significant byte comes first. */
  lemma BigEndianOrder(m: nat, n: nat)
    requires m < n < 0x1_0000_0000
    ensures exists i :: 0 <= i < 4 && BigEndian(m)[..i] == BigEndian(n)[..i] && BigEndian(m)[i] < BigEndian(n)[i]
  {
    var a, b := BigEndian(m), BigEndian(n);
    LengthRoundTrip(m);
    LengthRoundTrip(n);
    var i := if a[0] != b[0] then 0 else if a[1] != b[1] then 1 else if a[2] != b[2] then 2 else 3;
    assert a[..i] == b[..i];
    hide BigEndian;
  }

  /** Sixteen mebibytes are read back, and a header that announces one byte more is
      refused. */
  lemma LimitIsSixteenMebibytes(p: Bytes, tail: Bytes)
    ensures Sendable(p) <==> 1 <= |p| <= 16_777_216
    ensures Parse(BigEndian(16_777_217) + tail) == BadLength(16_777_217)
  {
    LengthRoundTrip(16_777_217);
    var s := BigEndian(16_777_217) + tail;
    assert s[..HEADER_SIZE] == BigEndian(16_777_217);
    assert ReadUInt32(s) == ReadUInt32(s[..HEADER_SIZE]);
    hide BigEndian;
  }

  lemma Digit(q: nat, r: nat)
    requires r < 256
    ensures (q * 256 + r) / 256 == q && (q * 256 + r) % 256 == r
  {
  }

  lemma DivTwice(n: nat)
    ensures n / 0x1_0000 == n / 256 / 256 && n / 0x100_0000 == n / 256 / 256 / 256
  {
  }

  /** A frame that a writer may put on the wire and every reader accepts. */
  predicate Sendable(payload: Bytes) { 1 <= |payload| <= MAX_FRAME }

  function Encode(payload: Bytes): Bytes
    requires |payload| <= MAX_FRAME
  {
    BigEndian(|payload|) + payload
  }

  function EncodeAll(ps: seq<Bytes>): Bytes
    requires forall i :: 0 <= i < |ps| ==> Sendable(ps[i])
  {
    if |ps| == 0 then [] else assert Sendable(ps[0]); Encode(ps[0]) + EncodeAll(ps[1..])
  }

  /** What the front of a byte stream holds. */
  datatype Front =
    | Frame(payload: Bytes, rest: Bytes)
    | BadLength(n: nat)                // zero, or more than the limit
    | ShortHeader                      // fewer than four bytes
    | ShortPayload                     // a good header, but not all of its payload

  function Parse(s: Bytes): (f: Front)
    ensures f.Frame? ==> |f.rest| < |s|
  {
    if |s| < HEADER_SIZE then ShortHeader
    else
      var n := ReadUInt32(s);
      if n == 0 || n > MAX_FRAME then BadLength(n)
      else if |s| < HEADER_SIZE + n then ShortPayload
      else Frame(s[HEADER_SIZE..HEADER_SIZE + n], s[HEADER_SIZE + n..])
  }

  datatype Parsed = Parsed(frames: seq<Bytes>, rest: Bytes)

  /** All complete frames at the front of a stream, and what is left over. */
  function ParseAll(s: Bytes): Parsed
    decreases |s|
  {
    match Parse(s)
    case Frame(p, rest) => var tail := ParseAll(rest); Parsed([p] + tail.frames, tail.rest)
    case _ => Parsed([], s)
  }

  // --- Round trips ---

  lemma ParseEncode(p: Bytes, tail: Bytes)
    requires |p| <= MAX_FRAME
    ensures Parse(Encode(p) + tail) == if p == [] then BadLength(0) else Frame(p, tail)
  {
    var h, s := BigEndian(|p|), Encode(p) + tail;
    LengthRoundTrip(|p|);
    assert s[..HEADER_SIZE] == h;
    assert ReadUInt32(s) == ReadUInt32(h);
  }

  /** Every frame a reader accepts is the encoding of its payload: the format is
      unambiguous in this direction too. */
  lemma {:induction false} EncodeParse(s: Bytes)
    requires Parse(s).Frame?
    ensures Sendable(Parse(s).payload) && s == Encode(Parse(s).payload) + Parse(s).rest
  {
    var h, n := s[..HEADER_SIZE], ReadUInt32(s);
    assert ReadUInt32(h) == n;
    HeaderRoundTrip(h);
    assert s == h + s[HEADER_SIZE..HEADER_SIZE + n] + s[HEADER_SIZE + n..];
  }

  /** Writers do not refuse an empty payload, but readers do: among the payloads
      a writer accepts, exactly the non-empty ones come back. */
  lemma {:induction false} RoundTripIff(p: Bytes, tail: Bytes)
    requires |p| <= MAX_FRAME
    ensures Parse(Encode(p) + tail) == Frame(p, tail) <==> Sendable(p)
  {
    ParseEncode(p, tail);
  }

  /** A stream of whole frames followed by anything that is not a whole frame is
      read back exactly, and exactly the unread suffix is left. */
  lemma {:induction false} StreamRoundTrip(ps: seq<Bytes>, tail: Bytes)
    requires forall i :: 0 <= i < |ps| ==> Sendable(ps[i])
    requires !Parse(tail).Frame?
    ensures ParseAll(EncodeAll(ps) + tail) == Parsed(ps, tail)
  {
    hide Encode, Parse, BigEndian, ReadUInt32;
    if ps == [] {
      assert EncodeAll(ps) + tail == tail;
    } else {
      var more := EncodeAll(ps[1..]) + tail;
      assert EncodeAll(ps) + tail == Encode(ps[0]) + more;
      ParseEncode(ps[0], more);
      StreamRoundTrip(ps[1..], tail);
    }
  }

  // --- Independence of chunking ---

  /** More bytes never change a verdict that has been reached. */
  lemma ParseExtends(s: Bytes, t: Bytes)
    ensures Parse(s).Frame? ==> Parse(s + t) == Frame(Parse(s).payload, Parse(s).rest + t)
    ensures Parse(s).BadLength? ==> Parse(s + t) == Parse(s)
  {
    if |s| >= HEADER_SIZE {
      assert ReadUInt32(s + t) == ReadUInt32(s);
      var n := ReadUInt32(s);
      if |s| >= HEADER_SIZE + n {
        assert (s + t)[HEADER_SIZE..HEADER_SIZE + n] == s[HEADER_SIZE..HEADER_SIZE + n];
        assert (s + t)[HEADER_SIZE + n..] == s[HEADER_SIZE + n..] + t;
      }
    }
  }

  /** Parsing what has arrived and going on from the leftover is the same as
      parsing everything at once. */
  lemma {:induction false} ParseInPieces(s: Bytes, t: Bytes)
    ensures var first := ParseAll(s);
            var more := ParseAll(first.rest + t);
            ParseAll(s + t) == Parsed(first.frames + more.frames, more.rest)
    decreases |s|
  {
    ParseExtends(s, t);
    hide Parse;
    var first := ParseAll(s);
    var more := ParseAll(first.rest + t);
    match Parse(s)
    case Frame(p, rest) =>
      ParseInPieces(rest, t);
      var tail := ParseAll(rest);
      assert first.frames + more.frames == [p] + (tail.frames + more.frames);
    case _ =>
      assert first.frames + more.frames == more.frames;
  }

  /** Once a bad length is at the front, more bytes change neither the frames
      before it nor the verdict. */
  lemma BadStays(s: Bytes, t: Bytes)
    requires Parse(ParseAll(s).rest).BadLength?
    ensures ParseAll(s + t).frames == ParseAll(s).frames
    ensures Parse(ParseAll(s + t).rest).BadLength?
  {
    ParseInPieces(s, t);
    ParseExtends(ParseAll(s).rest, t);
    hide Parse;
    assert ParseAll(ParseAll(s).rest + t).frames == [];
    assert ParseAll(s).frames + [] == ParseAll(s).frames;
  }

  /** A reader that has taken some frames and takes one more. */
  lemma {:induction false} TakeOne(taken: seq<Bytes>, s: Bytes)
    requires Parse(s).Frame?
    ensures ParseAll(s).rest == ParseAll(Parse(s).rest).rest
    ensures taken + ParseAll(s).frames == (taken + [Parse(s).payload]) + ParseAll(Parse(s).rest).frames
  {
    hide Parse;
    var p, tail := Parse(s).payload, ParseAll(Parse(s).rest);
    assert ParseAll(s).frames == [p] + tail.frames;
    assert taken + ([p] + tail.frames) == (taken + [p]) + tail.frames;
  }

  /** Where parsing stops, no whole frame is left. */
  lemma {:induction false} ParseAllStops(s: Bytes)
    ensures !Parse(ParseAll(s).rest).Frame?
    decreases |s|
  {
    if Parse(s).Frame? { ParseAllStops(Parse(s).rest); }
  }
}
