/** A gateway mirrors the function table of the store.  Unlike the scheduler it
    applies single events: a put is looked up again, a delete is believed. */
module FunctionCache {
  import opened WatchEvents
  import opened Options

  /** `spec` stands for binary, environment and layers. */
  datatype FunctionDef = FunctionDef(name: string, maxConcurrency: int, project: string, spec: string)

  const DEFAULT_MAX_CONCURRENCY := 4

  /** What applyPut makes of a definition. */
  function Normalise(d: FunctionDef): (r: FunctionDef)
    ensures r.name == d.name && r.project == d.project && r.spec == d.spec
    ensures r.maxConcurrency == if d.maxConcurrency >= 1 then d.maxConcurrency else 4
  {
    if d.maxConcurrency <= 0 then d.(maxConcurrency := DEFAULT_MAX_CONCURRENCY) else d
  }

  /** What PutFunction stores. */
  function WithProject(d: FunctionDef): (r: FunctionDef)
    ensures r.name == d.name && r.maxConcurrency == d.maxConcurrency && r.spec == d.spec
    ensures r.project == (if d.project == "" then "default" else d.project) && r.project != ""
  {
    if d.project == "" then d.(project := "default") else d
  }

  /** The watch goroutine: idle, holding an event, or holding a fetched definition. */
  datatype Phase = Waiting | Handling(ev: Event) | Fetched(def: FunctionDef)

  /** `unsent` lists the events of committed writes in commit order. */
  datatype System = System(
    store: map<string, FunctionDef>,
    unsent: seq<Event>,
    chan: seq<Event>,
    phase: Phase,
    cache: map<string, FunctionDef>)

  datatype Step =
    | Put(def: FunctionDef)
    | Delete(name: string)
    | Notify(k: nat)                   // the k-th committed write broadcasts
    | Lose(k: nat)                     // its event reaches no buffer
    | Receive
    | Fetch
    | ApplyPut
    | ApplyDelete
    | LocalPut(def: FunctionDef)       // RegisterDefAs updates its own cache directly
    | LocalDelete(name: string)        // and so does UnregisterAs

  predicate Enabled(s: System, a: Step) {
    match a
    case Put(_) => true
    case Delete(_) => true
    case Notify(k) => k < |s.unsent| && |s.chan| < CAPACITY
    case Lose(k) => k < |s.unsent|
    case Receive => s.phase.Waiting? && s.chan != []
    case Fetch => s.phase.Handling? && s.phase.ev.kind.FunctionPut?
    case ApplyPut => s.phase.Fetched?
    case ApplyDelete => s.phase.Handling? && s.phase.ev.kind.FunctionDelete?
    case LocalPut(_) => true
    case LocalDelete(_) => true
  }

  function RemoveAt(evs: seq<Event>, k: nat): seq<Event>
    requires k < |evs|
  {
    evs[..k] + evs[k + 1..]
  }

  function Apply(s: System, a: Step): System
    requires Enabled(s, a)
  {
    match a
    case Put(def) =>
      s.(store := s.store[def.name := WithProject(def)], unsent := s.unsent + [Event(FunctionPut, def.name)])
    case Delete(name) => s.(store := s.store - {name}, unsent := s.unsent + [Event(FunctionDelete, name)])
    case Notify(k) => s.(unsent := RemoveAt(s.unsent, k), chan := s.chan + [s.unsent[k]])
    case Lose(k) => s.(unsent := RemoveAt(s.unsent, k))
    case Receive => s.(chan := s.chan[1..], phase := Handling(s.chan[0]))
    case Fetch =>
      var n := s.phase.ev.name;
      s.(phase := if n in s.store then Fetched(s.store[n]) else Waiting)
    case ApplyPut => s.(phase := Waiting, cache := s.cache[s.phase.def.name := Normalise(s.phase.def)])
    case ApplyDelete => s.(phase := Waiting, cache := s.cache - {s.phase.ev.name})
    case LocalPut(def) => s.(cache := s.cache[def.name := Normalise(def)])
    case LocalDelete(name) => s.(cache := s.cache - {name})
  }

  predicate Init(s: System) {
    && s.unsent == [] && s.chan == [] && s.phase.Waiting?
    && s.cache.Keys == s.store.Keys
    && forall n :: n in s.store ==> s.store[n].name == n && s.cache[n] == Normalise(s.store[n])
  }

  /** The events on their way into the cache. */
  function Absorbing(s: System): seq<Event> { (if s.phase.Handling? then [s.phase.ev] else []) + s.chan }

  /** Every event the cache has not absorbed yet, oldest first. */
  function Backlog(s: System): seq<Event> { Absorbing(s) + s.unsent }

  /** The latest event about n. */
  function Latest(evs: seq<Event>, n: string): Option<Event> {
    if evs == [] then None
    else if evs[|evs| - 1].name == n then Some(evs[|evs| - 1])
    else Latest(evs[..|evs| - 1], n)
  }

  predicate Mirrors(s: System, n: string) {
    && (n in s.cache <==> n in s.store)
    && (n in s.store ==> s.cache[n] == Normalise(s.store[n]))
  }

  /** A put of n is fetched but not applied yet. */
  predicate InHand(s: System, n: string) { s.phase.Fetched? && s.phase.def.name == n }

  /** Announcing the k-th write now leaves the right event about its name last: no
      other write to that name is left, or the last one left is of the same kind
      as the last one there was. */
  predicate InTurn(s: System, k: nat)
    requires k < |s.unsent|
  {
    var n := s.unsent[k].name;
    var left, last := Latest(RemoveAt(s.unsent, k), n), Latest(s.unsent, n);
    left.None? || (last.Some? && left.value.kind == last.value.kind)
  }

  /** Nobody needs the k-th announcement: the latest event left about its name tells
      the truth, or there is none and the cache is right or about to be. */
  predicate Superfluous(s: System, k: nat)
    requires k < |s.unsent|
  {
    var n := s.unsent[k].name;
    match Latest(Absorbing(s) + RemoveAt(s.unsent, k), n)
    case Some(ev) => ev.kind.FunctionPut? <==> n in s.store
    case None => if InHand(s, n) then n in s.store && s.phase.def == s.store[n] else Mirrors(s, n)
  }

  /** Writes are announced in an order that does no harm, only announcements that
      nobody needs are lost, and a direct update of the cache is either current
      or still to be corrected. */
  ghost predicate Orderly(s: System, a: Step) {
    match a
    case Notify(k) => k < |s.unsent| && InTurn(s, k)
    case Lose(k) => k < |s.unsent| && Superfluous(s, k)
    case LocalPut(def) => Current(s, def)
    case LocalDelete(name) => Latest(Backlog(s), name).Some? || InHand(s, name) || name !in s.store
    case _ => true
  }

  predicate Current(s: System, def: FunctionDef) {
    || Latest(Backlog(s), def.name).Some?
    || InHand(s, def.name)
    || (def.name in s.store && Normalise(def) == Normalise(s.store[def.name]))
  }

  ghost predicate Next(s: System, s': System) {
    exists a :: Enabled(s, a) && Orderly(s, a) && s' == Apply(s, a)
  }

  ghost predicate IsRun(run: seq<System>) {
    && |run| > 0 && Init(run[0])
    && forall i :: 0 <= i < |run| - 1 ==> Next(run[i], run[i + 1])
  }

  // --- The latest event of a name ---

  lemma {:induction false} LatestConcat(xs: seq<Event>, ys: seq<Event>, n: string)
    ensures Latest(xs + ys, n) == if Latest(ys, n).Some? then Latest(ys, n) else Latest(xs, n)
  {
    if ys == [] {
      assert xs + ys == xs;
    } else {
      var m := |ys| - 1;
      assert (xs + ys)[..|xs + ys| - 1] == xs + ys[..m];
      LatestConcat(xs, ys[..m], n);
    }
  }

  lemma {:induction false} LatestNone(evs: seq<Event>, n: string)
    requires forall i :: 0 <= i < |evs| ==> evs[i].name != n
    ensures Latest(evs, n) == None
  {
    if evs != [] { LatestNone(evs[..|evs| - 1], n); }
  }

  lemma LatestSnoc(evs: seq<Event>, ev: Event, n: string)
    ensures Latest(evs + [ev], n) == if ev.name == n then Some(ev) else Latest(evs, n)
  {
    assert (evs + [ev])[..|evs|] == evs;
  }

  lemma LatestCons(ev: Event, evs: seq<Event>, n: string)
    ensures Latest([ev] + evs, n) ==
      if Latest(evs, n).Some? then Latest(evs, n) else if ev.name == n then Some(ev) else None
  {
    LatestConcat([ev], evs, n);
    LatestSnoc([], ev, n);
    assert [] + [ev] == [ev];
  }

  lemma {:induction false} LatestIsOne(evs: seq<Event>, n: string)
    ensures Latest(evs, n).Some? ==> Latest(evs, n).value in evs && Latest(evs, n).value.name == n
  {
    if evs != [] { LatestIsOne(evs[..|evs| - 1], n); }
  }

  lemma {:induction false} LatestSome(evs: seq<Event>, k: nat)
    requires k < |evs|
    ensures Latest(evs, evs[k].name).Some?
  {
    if k < |evs| - 1 {
      assert evs[..|evs| - 1][k] == evs[k];
      LatestSome(evs[..|evs| - 1], k);
    }
  }

  /** What taking one event out does to the latest of a name. */
  lemma LatestRemoved(evs: seq<Event>, k: nat, n: string)
    requires k < |evs|
    ensures Latest(evs, n) == var after := Latest(evs[k + 1..], n);
      if after.Some? then after else if evs[k].name == n then Some(evs[k]) else Latest(evs[..k], n)
    ensures Latest(RemoveAt(evs, k), n) ==
      if Latest(evs[k + 1..], n).Some? then Latest(evs[k + 1..], n) else Latest(evs[..k], n)
  {
    assert evs == (evs[..k] + [evs[k]]) + evs[k + 1..];
    LatestConcat(evs[..k] + [evs[k]], evs[k + 1..], n);
    LatestSnoc(evs[..k], evs[k], n);
    LatestConcat(evs[..k], evs[k + 1..], n);
  }

  /** Announcing the k-th write: only its own name can be affected, and its latest
      event is then the latest of the writes left, or itself. */
  lemma NotifyLatest(front: seq<Event>, unsent: seq<Event>, k: nat, n: string)
    requires k < |unsent|
    ensures var now := Latest(front + [unsent[k]] + RemoveAt(unsent, k), n);
      if n != unsent[k].name then now == Latest(front + unsent, n)
      else now == if Latest(RemoveAt(unsent, k), n).Some? then Latest(RemoveAt(unsent, k), n) else Some(unsent[k])
    ensures n == unsent[k].name ==> Latest(front + unsent, n) == Latest(unsent, n)
  {
    var e, rest := unsent[k], RemoveAt(unsent, k);
    LatestConcat(front + [e], rest, n);
    LatestSnoc(front, e, n);
    LatestConcat(front, unsent, n);
    LatestRemoved(unsent, k, n);
    LatestSome(unsent, k);
  }

  // --- Invariant ---

  ghost predicate Named(s: System) {
    && (forall n :: n in s.store ==> s.store[n].name == n)
    && (forall i :: 0 <= i < |Backlog(s)| ==> Backlog(s)[i].kind.FunctionPut? || Backlog(s)[i].kind.FunctionDelete?)
  }

  /** Per name: the latest unabsorbed event tells whether the name is stored;
      with none left, the cache is right, or will be after the put in hand. */
  ghost predicate Tracks(s: System, n: string) {
    match Latest(Backlog(s), n)
    case Some(ev) => ev.kind.FunctionPut? <==> n in s.store
    case None => if InHand(s, n) then n in s.store && s.phase.def == s.store[n] else Mirrors(s, n)
  }

  ghost predicate Inv(s: System) { Named(s) && forall n :: Tracks(s, n) }

  lemma WriteChange(s: System, s': System, ev: Event, n: string)
    requires s'.unsent == s.unsent + [ev] && s'.chan == s.chan && s'.phase == s.phase
    ensures Latest(Backlog(s'), n) == if ev.name == n then Some(ev) else Latest(Backlog(s), n)
  {
    hide Latest;
    assert Backlog(s') == Backlog(s) + [ev];
    LatestSnoc(Backlog(s), ev, n);
  }

  lemma PutTracks(s: System, def: FunctionDef, n: string)
    requires Tracks(s, n)
    ensures Tracks(Apply(s, Put(def)), n)
  {
    hide Latest, Backlog;
    WriteChange(s, Apply(s, Put(def)), Event(FunctionPut, def.name), n);
  }

  lemma DeleteTracks(s: System, name: string, n: string)
    requires Tracks(s, n)
    ensures Tracks(Apply(s, Delete(name)), n)
  {
    hide Latest, Backlog;
    WriteChange(s, Apply(s, Delete(name)), Event(FunctionDelete, name), n);
  }

  lemma NotifyTracks(s: System, k: nat, n: string)
    requires Tracks(s, n) && Enabled(s, Notify(k)) && InTurn(s, k)
    ensures Tracks(Apply(s, Notify(k)), n)
  {
    NotifyChange(s, k, n);
    LatestRemoved(s.unsent, k, n);
    hide Latest, RemoveAt;
  }

  lemma NotifyChange(s: System, k: nat, n: string)
    requires Enabled(s, Notify(k))
    ensures var s', left := Apply(s, Notify(k)), Latest(RemoveAt(s.unsent, k), n);
      if n != s.unsent[k].name then Latest(Backlog(s'), n) == Latest(Backlog(s), n)
      else
        && Latest(Backlog(s), n) == Latest(s.unsent, n)
        && Latest(Backlog(s'), n) == if left.Some? then left else Some(s.unsent[k])
  {
    assert Backlog(Apply(s, Notify(k))) == Absorbing(s) + [s.unsent[k]] + RemoveAt(s.unsent, k);
    NotifyLatest(Absorbing(s), s.unsent, k, n);
  }

  lemma LoseTracks(s: System, k: nat, n: string)
    requires Tracks(s, n) && Enabled(s, Lose(k)) && Superfluous(s, k)
    ensures Tracks(Apply(s, Lose(k)), n)
  {
    LoseChange(s, k, n);
    hide Latest, RemoveAt;
  }

  lemma LoseChange(s: System, k: nat, n: string)
    requires Enabled(s, Lose(k))
    ensures Backlog(Apply(s, Lose(k))) == Absorbing(s) + RemoveAt(s.unsent, k)
    ensures n != s.unsent[k].name ==> Latest(Backlog(Apply(s, Lose(k))), n) == Latest(Backlog(s), n)
  {
    LatestConcat(Absorbing(s), RemoveAt(s.unsent, k), n);
    LatestConcat(Absorbing(s), s.unsent, n);
    LatestRemoved(s.unsent, k, n);
  }

  lemma ReceiveTracks(s: System, n: string)
    requires Tracks(s, n) && Enabled(s, Receive)
    ensures Tracks(Apply(s, Receive), n)
  {
    assert Backlog(Apply(s, Receive)) == Backlog(s);
  }

  lemma AbsorbTracks(s: System, a: Step, n: string)
    requires Named(s) && Tracks(s, n) && (a.Fetch? || a.ApplyDelete?) && Enabled(s, a)
    ensures Tracks(Apply(s, a), n)
  {
    var rest := s.chan + s.unsent;
    assert Backlog(s) == [s.phase.ev] + rest && Backlog(Apply(s, a)) == rest;
    LatestCons(s.phase.ev, rest, n);
    hide Latest;
  }

  lemma ApplyTracks(s: System, n: string)
    requires Named(s) && Tracks(s, n) && Enabled(s, ApplyPut)
    ensures Tracks(Apply(s, ApplyPut), n)
  {
    assert Backlog(Apply(s, ApplyPut)) == Backlog(s);
  }

  lemma StepTracks(s: System, a: Step, n: string)
    requires Named(s) && Tracks(s, n) && Enabled(s, a) && Orderly(s, a)
    ensures Tracks(Apply(s, a), n)
  {
    match a
    case Put(def) => PutTracks(s, def, n);
    case Delete(name) => DeleteTracks(s, name, n);
    case Notify(k) => NotifyTracks(s, k, n);
    case Lose(k) => LoseTracks(s, k, n);
    case Receive => ReceiveTracks(s, n);
    case Fetch => AbsorbTracks(s, a, n);
    case ApplyPut => ApplyTracks(s, n);
    case ApplyDelete => AbsorbTracks(s, a, n);
    case LocalPut(_) => assert Backlog(Apply(s, a)) == Backlog(s);
    case LocalDelete(_) => assert Backlog(Apply(s, a)) == Backlog(s);
  }

  lemma StepKeepsNamed(s: System, a: Step)
    requires Named(s) && Enabled(s, a)
    ensures Named(Apply(s, a))
  {
    var s' := Apply(s, a);
    forall i | 0 <= i < |Backlog(s')|
      ensures Backlog(s')[i].kind.FunctionPut? || Backlog(s')[i].kind.FunctionDelete?
    {
      var ev := Backlog(s')[i];
      if ev in Backlog(s) {
        var j :| 0 <= j < |Backlog(s)| && Backlog(s)[j] == ev;
      }
    }
  }

  lemma StepKeepsInv(s: System, a: Step)
    requires Inv(s) && Enabled(s, a) && Orderly(s, a)
    ensures Inv(Apply(s, a))
  {
    hide Named, Tracks, Apply, Enabled, Orderly;
    StepKeepsNamed(s, a);
    forall n ensures Tracks(Apply(s, a), n) { StepTracks(s, a, n); }
  }

  lemma InitHolds(s: System)
    requires Init(s)
    ensures Inv(s)
  {
    assert Backlog(s) == [];
  }

  lemma {:induction false} RunKeepsInv(run: seq<System>, n: nat)
    requires IsRun(run) && n < |run|
    ensures Inv(run[n])
  {
    hide Inv, Apply, Enabled, Orderly;
    if n == 0 {
      InitHolds(run[0]);
    } else {
      RunKeepsInv(run, n - 1);
      assert Next(run[n - 1], run[n - 1 + 1]);
      var a :| Enabled(run[n - 1], a) && Orderly(run[n - 1], a) && run[n] == Apply(run[n - 1], a);
      StepKeepsInv(run[n - 1], a);
    }
  }

  // --- Main results ---

  /** Cache convergence: a name without unabsorbed events is cached exactly as
      it is stored, defaults filled in; for any other name the latest event
      says whether it is stored. */
  lemma CacheConverges(run: seq<System>, i: nat, n: string)
    requires IsRun(run) && i < |run| && !InHand(run[i], n)
    ensures match Latest(Backlog(run[i]), n)
            case None => Mirrors(run[i], n)
            case Some(ev) => ev.kind.FunctionPut? <==> n in run[i].store
  {
    RunKeepsInv(run, i);
    assert Tracks(run[i], n);
  }

  /** The direct update in RegisterDefAs is safe exactly when an event about the
      name is still to come or the store still holds that definition. */
  lemma LocalPutIsSafeIff(s: System, def: FunctionDef)
    requires Inv(s)
    ensures Inv(Apply(s, LocalPut(def))) <==> Current(s, def)
  {
    var s' := Apply(s, LocalPut(def));
    assert Backlog(s') == Backlog(s);
    if Current(s, def) {
      StepKeepsInv(s, LocalPut(def));
    } else {
      assert !Tracks(s', def.name);
    }
  }

  /** The direct update in UnregisterAs is safe exactly when an event about the
      name is still to come or the store does not hold the name. */
  lemma LocalDeleteIsSafeIff(s: System, name: string)
    requires Inv(s)
    ensures Inv(Apply(s, LocalDelete(name))) <==>
      Latest(Backlog(s), name).Some? || InHand(s, name) || name !in s.store
  {
    var s' := Apply(s, LocalDelete(name));
    assert Backlog(s') == Backlog(s);
    if Orderly(s, LocalDelete(name)) {
      StepKeepsInv(s, LocalDelete(name));
    } else {
      assert !Tracks(s', name);
    }
  }

  /** An announcement out of commit order is safe exactly when it is in turn. */
  lemma NotifyIsSafeIff(s: System, k: nat)
    requires Inv(s) && Enabled(s, Notify(k))
    ensures Inv(Apply(s, Notify(k))) <==> InTurn(s, k)
  {
    if InTurn(s, k) {
      StepKeepsInv(s, Notify(k));
    } else {
      var n := s.unsent[k].name;
      NotifyChange(s, k, n);
      LatestSome(s.unsent, k);
      KindsOfUnsent(s, k, n);
      assert Tracks(s, n);
      hide Latest, RemoveAt;
      assert !Tracks(Apply(s, Notify(k)), n);
    }
  }

  /** Only puts and deletes are announced, so two events of different kinds do not
      tell the same. */
  lemma KindsOfUnsent(s: System, k: nat, n: string)
    requires Named(s) && k < |s.unsent|
    ensures var last := Latest(s.unsent, n);
      last.Some? ==> last.value.kind.FunctionPut? || last.value.kind.FunctionDelete?
    ensures var left := Latest(RemoveAt(s.unsent, k), n);
      left.Some? ==> left.value.kind.FunctionPut? || left.value.kind.FunctionDelete?
  {
    forall ev | ev in s.unsent ensures ev.kind.FunctionPut? || ev.kind.FunctionDelete? {
      var j :| 0 <= j < |s.unsent| && s.unsent[j] == ev;
      assert Backlog(s)[|Absorbing(s)| + j] == ev;
    }
    LatestIsOne(s.unsent, n);
    LatestIsOne(RemoveAt(s.unsent, k), n);
  }

  /** A lost announcement is harmless exactly when nobody needed it. */
  lemma LoseIsSafeIff(s: System, k: nat)
    requires Inv(s) && Enabled(s, Lose(k))
    ensures Inv(Apply(s, Lose(k))) <==> Superfluous(s, k)
  {
    if Superfluous(s, k) {
      StepKeepsInv(s, Lose(k));
    } else {
      LoseChange(s, k, s.unsent[k].name);
      assert !Tracks(Apply(s, Lose(k)), s.unsent[k].name);
    }
  }

  /** The buffer never holds more than sixteen events, and up to there every pending
      announcement can be delivered. */
  lemma {:induction false} BufferIsBounded(run: seq<System>, n: nat)
    requires IsRun(run) && n < |run|
    ensures |run[n].chan| <= 16
    ensures |run[n].chan| < 16 && run[n].unsent != [] ==> Enabled(run[n], Notify(0))
  {
    if n > 0 {
      BufferIsBounded(run, n - 1);
      assert Next(run[n - 1], run[n - 1 + 1]);
      var a :| Enabled(run[n - 1], a) && Orderly(run[n - 1], a) && run[n] == Apply(run[n - 1], a);
      hide Orderly, Init;
    }
  }

  // --- The conditions are needed ---

  ghost predicate Path(path: seq<System>) {
    |path| > 0 && forall i :: 0 <= i < |path| - 1 ==> Moves(path[i], path[i + 1])
  }

  ghost predicate Moves(s: System, s': System) { exists a :: Enabled(s, a) && s' == Apply(s, a) }

  lemma Extend(path: seq<System>, a: Step) returns (longer: seq<System>)
    requires Path(path) && Enabled(path[|path| - 1], a)
    ensures Path(longer) && longer == path + [Apply(path[|path| - 1], a)]
  {
    hide Apply, Enabled;
    var s := path[|path| - 1];
    longer := path + [Apply(s, a)];
    assert Moves(s, Apply(s, a));
    forall i | 0 <= i < |longer| - 1 ensures Moves(longer[i], longer[i + 1]) {
      if i < |path| - 1 { assert Moves(path[i], path[i + 1]); }
    }
  }

  /** A resting system whose cache is wrong about n for good. */
  predicate Stuck(s: System, n: string) { s.phase.Waiting? && Backlog(s) == [] && !Mirrors(s, n) }

  /** A put notified before an earlier delete: the delete is believed. */
  lemma CrossedNotificationsDiverge(def: FunctionDef) returns (path: seq<System>)
    ensures Path(path) && Init(path[0]) && Stuck(path[|path| - 1], def.name)
  {
    path := [System(map[], [], [], Waiting, map[])];
    path := Extend(path, Delete(def.name));
    path := Extend(path, Put(def));
    path := Extend(path, Notify(1));
    path := Extend(path, Receive);
    path := Extend(path, Fetch);
    path := Extend(path, ApplyPut);
    path := Extend(path, Notify(0));
    path := Extend(path, Receive);
    path := Extend(path, ApplyDelete);
  }

  /** A write between the bootstrap listing and the subscription, or into a full
      buffer: its event reaches nobody. */
  lemma LostEventDiverges(def: FunctionDef) returns (path: seq<System>)
    ensures Path(path) && Init(path[0]) && Stuck(path[|path| - 1], def.name)
  {
    path := [System(map[], [], [], Waiting, map[])];
    path := Extend(path, Put(def));
    path := Extend(path, Lose(0));
  }

  /** RegisterDefAs applies its own definition late, over a newer one. */
  lemma LateLocalPutDiverges(old': FunctionDef, new': FunctionDef) returns (path: seq<System>)
    requires old'.name == new'.name && Normalise(old') != Normalise(WithProject(new'))
    ensures Path(path) && Init(path[0]) && Stuck(path[|path| - 1], new'.name)
  {
    path := [System(map[], [], [], Waiting, map[])];
    path := Extend(path, Put(new'));
    path := Extend(path, Notify(0));
    path := Extend(path, Receive);
    path := Extend(path, Fetch);
    path := Extend(path, ApplyPut);
    path := Extend(path, LocalPut(old'));
  }
}
