/** How the Postgres store turns notifications into events, and what happens to
    the channels of its subscribers. */
module PostgresEvents {
  import opened Options
  import opened WatchEvents

  /** strings.Cut at the first colon. */
  function Cut(s: string): (r: Option<(string, string)>)
    ensures r.None? <==> ':' !in s
    ensures r.Some? ==> s == r.value.0 + ":" + r.value.1 && ':' !in r.value.0
  {
    if s == "" then None
    else if s[0] == ':' then Some(("", s[1..]))
    else
      match Cut(s[1..])
      case None => None
      case Some((a, b)) => assert s == [s[0]] + s[1..]; Some(([s[0]] + a, b))
  }

  /** What dispatch makes of a notification; None is ignored. */
  function Decode(channel: string, payload: string): Option<Event> {
    match Cut(payload)
    case None => None
    case Some((op, name)) =>
      if channel == "cfunc_functions" then
        if op == "put" then Some(Event(FunctionPut, name))
        else if op == "delete" then Some(Event(FunctionDelete, name))
        else None
      else if channel == "cfunc_crons" then
        if op == "put" then Some(Event(CronPut, name))
        else if op == "delete" then Some(Event(CronDelete, name))
        else None
      else None
  }

  /** What the store notifies for an event. */
  function ChannelOf(ev: Event): string {
    match ev.kind
    case FunctionPut => "cfunc_functions"
    case FunctionDelete => "cfunc_functions"
    case CronPut => "cfunc_crons"
    case CronDelete => "cfunc_crons"
  }

  function OpOf(kind: EventKind): (op: string)
    ensures ':' !in op
  {
    if kind.FunctionPut? || kind.CronPut? then "put" else "delete"
  }

  function PayloadOf(ev: Event): string { OpOf(ev.kind) + ":" + ev.name }

  lemma {:induction false} CutAt(a: string, b: string)
    requires ':' !in a
    ensures Cut(a + ":" + b) == Some((a, b))
  {
    if a == "" {
      assert "" + ":" + b == ":" + b && (":" + b)[1..] == b;
    } else {
      assert (a + ":" + b)[1..] == a[1..] + ":" + b;
      CutAt(a[1..], b);
      assert a == [a[0]] + a[1..];
    }
  }

  /** Every event arrives as it was sent, colons in names included. */
  lemma NotifyRoundTrip(ev: Event)
    ensures Decode(ChannelOf(ev), PayloadOf(ev)) == Some(ev)
  {
    CutAt(OpOf(ev.kind), ev.name);
    hide Cut;
  }

  /** And nothing else is taken for an event. */
  lemma DecodeIsExact(channel: string, payload: string)
    requires Decode(channel, payload).Some?
    ensures var ev := Decode(channel, payload).value; ChannelOf(ev) == channel && PayloadOf(ev) == payload
  {
    var (op, name) := Cut(payload).value;
    assert payload == op + ":" + name;
    hide Cut;
  }

  /** A Go channel: sending on a closed one and closing it again both panic. */
  class Chan {
    var buffer: seq<Event>
    var closed: bool

    constructor ()
      ensures buffer == [] && !closed
    {
      buffer, closed := [], false;
    }

    method TrySend(ev: Event)
      requires !closed
      modifies this`buffer
      ensures buffer == Send(old(buffer), ev)
    {
      if |buffer| < CAPACITY { buffer := buffer + [ev]; }
    }

    method Close()
      requires !closed
      modifies this`closed
      ensures closed
    {
      closed := true;
    }
  }

  class Subscribers {
    var open: bool                     // subs is not nil
    var subs: set<Chan>

    ghost predicate Valid()
      reads this, subs
    {
      (!open ==> subs == {}) && forall ch :: ch in subs ==> !ch.closed
    }

    constructor ()
      ensures Valid() && open && subs == {}
    {
      open, subs := true, {};
    }

    method Watch() returns (r: Option<Chan>)
      requires Valid()
      modifies this`subs
      ensures Valid() && (r.Some? <==> open)
      ensures r.Some? ==> fresh(r.value) && r.value.buffer == [] && subs == old(subs) + {r.value}
      ensures r.None? ==> subs == old(subs)
    {
      if !open { return None; }
      var ch := new Chan();
      subs := subs + {ch};
      return Some(ch);
    }

    /** The end of a watch context, at any time and for any channel, closed ones
        included: the channel is closed if and only if it was still subscribed. */
    method Cancel(ch: Chan)
      requires Valid()
      modifies this`subs, ch`closed
      ensures Valid() && subs == old(subs) - {ch}
      ensures ch.closed == (old(ch.closed) || ch in old(subs))
    {
      if ch in subs {
        subs := subs - {ch};
        ch.Close();
      }
    }

    /** Closes every subscribed channel; afterwards nobody can subscribe. */
    method Close()
      requires Valid()
      modifies this`subs, this`open, subs`closed
      ensures Valid() && !open && subs == {}
      ensures forall ch :: ch in old(subs) ==> ch.closed
    {
      var rest := subs;
      while rest != {}
        invariant rest <= subs == old(subs)
        invariant forall ch :: ch in subs ==> (ch.closed <==> ch !in rest)
      {
        var ch :| ch in rest;
        ch.Close();
        rest := rest - {ch};
      }
      open, subs := false, {};
    }

    /** A decoded event reaches every subscriber with room; never a closed one. */
    method Dispatch(channel: string, payload: string)
      requires Valid()
      modifies subs`buffer
      ensures Valid()
      ensures forall ch :: ch in subs ==>
        ch.buffer == match Decode(channel, payload)
                     case Some(ev) => Send(old(ch.buffer), ev)
                     case None => old(ch.buffer)
    {
      var ev := Decode(channel, payload);
      if ev.None? { return; }
      var rest := subs;
      while rest != {}
        invariant rest <= subs
        invariant forall ch :: ch in subs ==> !ch.closed
        invariant forall ch :: ch in subs ==>
            ch.buffer == if ch in rest then old(ch.buffer) else Send(old(ch.buffer), ev.value)
      {
        var ch :| ch in rest;
        ch.TrySend(ev.value);
        rest := rest - {ch};
      }
    }
  }
}
