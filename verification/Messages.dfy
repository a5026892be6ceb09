/** The messages inside the frames, and a marshaller about which only the law
    that unmarshalling undoes it is known. */
module Messages {
  import opened Framing
  import opened Options

  datatype Kind = Init | InitOk | Invoke | Result | Error | Shutdown | ShutdownOk | Unknown

  datatype Message = Message(kind: Kind, id: string, body: Bytes)

  /** What a payload that is no message object is: JSON null, another value that
      counts as false, any other value, or no JSON at all. */
  datatype Oddity = Null | Falsy | Truthy | NotJson

  datatype Codec = Codec(marshal: Message -> Bytes, unmarshal: Bytes -> Option<Message>, oddity: Bytes -> Oddity)

  ghost predicate Lawful(c: Codec) {
    forall m :: c.unmarshal(c.marshal(m)) == Some(m) && c.marshal(m) != []
  }

  /** What WriteFrame accepts. */
  predicate Fits(c: Codec, m: Message) { |c.marshal(m)| <= MAX_FRAME }

  function Wire(c: Codec, m: Message): Bytes
    requires Fits(c, m)
  {
    Encode(c.marshal(m))
  }

  /** The reply kinds a message of each kind may get; the id is echoed. */
  predicate Answers(m: Message, reply: Message) {
    && reply.id == m.id
    && match m.kind
       case Invoke => reply.kind.Result? || reply.kind.Error?
       case Init => reply.kind.InitOk?
       case Shutdown => reply.kind.ShutdownOk?
       case _ => reply.kind.Error?
  }

  lemma ReadsBack(c: Codec, m: Message)
    requires Lawful(c) && Fits(c, m)
    ensures Parse(Wire(c, m)) == Frame(c.marshal(m), []) && c.unmarshal(c.marshal(m)) == Some(m)
  {
    ParseEncode(c.marshal(m), []);
    assert Encode(c.marshal(m)) + [] == Encode(c.marshal(m));
  }

  /** A frame that has arrived only in part is not mistaken for anything. */
  lemma PartIsShort(c: Codec, m: Message, part: Bytes, left: Bytes)
    requires Lawful(c) && Fits(c, m) && part + left == Wire(c, m) && left != []
    ensures Parse(part).ShortHeader? || Parse(part).ShortPayload?
  {
    ReadsBack(c, m);
    ParseExtends(part, left);
  }
}
