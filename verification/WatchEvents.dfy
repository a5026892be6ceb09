/** The notifications a store sends to its watchers. */
module WatchEvents {
  datatype EventKind = FunctionPut | FunctionDelete | CronPut | CronDelete

  datatype Event = Event(kind: EventKind, name: string)

  predicate IsCron(ev: Event) { ev.kind.CronPut? || ev.kind.CronDelete? }

  const CAPACITY := 16

  /** A send into a full buffer is dropped. */
  function Send(chan: seq<Event>, ev: Event): (after: seq<Event>)
    ensures |chan| < 16 ==> |after| == |chan| + 1 && after[..|chan|] == chan && after[|chan|] == ev
    ensures |chan| >= 16 ==> after == chan
  {
    if |chan| < CAPACITY then chan + [ev] else chan
  }
}
