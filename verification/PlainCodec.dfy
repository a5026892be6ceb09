/** A marshaller that obeys the law. */
module PlainCodec {
  import opened Framing
  import opened Messages
  import opened Options

  function KindCode(k: Kind): byte {
    match k
    case Init => 1
    case InitOk => 2
    case Invoke => 3
    case Result => 4
    case Error => 5
    case Shutdown => 6
    case ShutdownOk => 7
    case Unknown => 8
  }

  function KindAt(b: byte): Kind {
    if b == 1 then Init else if b == 2 then InitOk else if b == 3 then Invoke else if b == 4 then Result
    else if b == 5 then Error else if b == 6 then Shutdown else if b == 7 then ShutdownOk else Unknown
  }

  /** Each character takes four bytes, the first of which says that one follows. */
  function IdBytes(id: string): Bytes {
    if id == "" then [0]
    else var c := id[0] as int; [1, c / 0x1_0000, c / 256 % 256, c % 256] + IdBytes(id[1..])
  }

  function CharAt(n: int): char { if 0 <= n < 0xD800 || 0xE000 <= n < 0x11_0000 then n as char else ' ' }

  /** The id at the front, and what follows it. */
  function ReadId(b: Bytes): Option<(string, Bytes)> {
    if b == [] then None
    else if b[0] == 0 then Some(("", b[1..]))
    else if |b| < 4 then None
    else match ReadId(b[4..])
      case None => None
      case Some((id, rest)) => Some(([CharAt(b[1] as int * 0x1_0000 + b[2] as int * 256 + b[3] as int)] + id, rest))
  }

  lemma {:induction false} IdRoundTrip(id: string, rest: Bytes)
    ensures ReadId(IdBytes(id) + rest) == Some((id, rest))
  {
    if id == "" {
      assert ([0] + rest)[1..] == rest;
    } else {
      var c := id[0] as int;
      var b := IdBytes(id) + rest;
      assert b[4..] == IdBytes(id[1..]) + rest;
      IdRoundTrip(id[1..], rest);
      assert c / 0x1_0000 * 0x1_0000 + c / 256 % 256 * 256 + c % 256 == c by { ThreeDigits(c); }
      assert CharAt(c) == id[0];
      assert id == [id[0]] + id[1..];
    }
  }

  lemma ThreeDigits(c: nat)
    ensures c / 0x1_0000 * 0x1_0000 + c / 256 % 256 * 256 + c % 256 == c
  {
    assert c == c / 256 * 256 + c % 256;
    assert c / 256 == c / 256 / 256 * 256 + c / 256 % 256;
    assert c / 0x1_0000 == c / 256 / 256;
  }

  function Marshal(m: Message): Bytes { [KindCode(m.kind)] + IdBytes(m.id) + m.body }

  function Unmarshal(b: Bytes): Option<Message> {
    if b == [] then None
    else match ReadId(b[1..])
      case None => None
      case Some((id, body)) => Some(Message(KindAt(b[0]), id, body))
  }

  lemma MessageRoundTrip(m: Message)
    ensures Unmarshal(Marshal(m)) == Some(m) && Marshal(m) != []
  {
    var b := Marshal(m);
    assert b[0] == KindCode(m.kind) && b[1..] == IdBytes(m.id) + m.body;
    IdRoundTrip(m.id, m.body);
    assert KindAt(KindCode(m.kind)) == m.kind;
    hide IdBytes, ReadId, KindAt, KindCode;
  }

  /** The law can be met, so theorems that assume it are about something. */
  lemma LawfulCodecExists()
    ensures Lawful(Codec(Marshal, Unmarshal, _ => NotJson))
  {
    hide Marshal, Unmarshal;
    forall m ensures Unmarshal(Marshal(m)) == Some(m) && Marshal(m) != [] { MessageRoundTrip(m); }
  }
}
