/** When a gateway's cache comes to rest right.  FunctionCache asks that the latest
    event always tells the truth; but a late put of a deleted name does no harm,
    because it is looked up. */
module CacheHealing {
  import opened WatchEvents
  import opened Options
  import opened FunctionCache

  // --- Coming to rest ---

  /** The gateway and the announcements go on in order, and nobody writes. */
  predicate IsQuiet(a: Step) { (a.Notify? && a.k == 0) || a.Receive? || a.Fetch? || a.ApplyPut? || a.ApplyDelete? }

  ghost predicate QuietPath(path: seq<System>) {
    |path| > 0 && forall i :: 0 <= i < |path| - 1 ==> QuietMove(path[i], path[i + 1])
  }

  ghost predicate QuietMove(s: System, s': System) { exists a :: IsQuiet(a) && Enabled(s, a) && s' == Apply(s, a) }

  predicate Resting(s: System) { s.phase.Waiting? && s.chan == [] && s.unsent == [] }

  /** However the gateway comes to rest, its cache is right about n. */
  ghost predicate RestsRight(s: System, n: string) {
    forall path :: QuietPath(path) && path[0] == s && Resting(path[|path| - 1]) ==> Mirrors(path[|path| - 1], n)
  }

  // --- What decides it ---

  predicate DeleteLeft(s: System, n: string) { Event(FunctionDelete, n) in Backlog(s) }

  /** A stored name needs a put as its latest event, or the right definition in hand
      or in the cache; any other name needs a delete, or must be absent. */
  predicate Heals(s: System, n: string) {
    if n in s.store then
      match Latest(Backlog(s), n)
      case Some(ev) => ev.kind.FunctionPut?
      case None => if InHand(s, n) then Normalise(s.phase.def) == Normalise(s.store[n]) else Mirrors(s, n)
    else DeleteLeft(s, n) || (n !in s.cache && !InHand(s, n))
  }

  lemma AtRest(s: System, n: string)
    requires Resting(s)
    ensures Heals(s, n) <==> Mirrors(s, n)
  {
    assert Backlog(s) == [];
  }

  lemma FirstMoves(front: seq<Event>, unsent: seq<Event>)
    requires unsent != []
    ensures (front + [unsent[0]]) + RemoveAt(unsent, 0) == front + unsent
  {
  }

  lemma NotifyFirst(s: System)
    requires Enabled(s, Notify(0))
    ensures Backlog(Apply(s, Notify(0))) == Backlog(s)
  {
    FirstMoves(Absorbing(s), s.unsent);
    hide RemoveAt;
    var e, rest := s.unsent[0], RemoveAt(s.unsent, 0);
    assert Absorbing(Apply(s, Notify(0))) == Absorbing(s) + [e];
  }

  /** An event that the gateway takes up. */
  lemma TakesUp(s: System, s': System, n: string)
    requires s.phase.Handling? && s'.chan == s.chan && s'.unsent == s.unsent && !s'.phase.Handling?
    ensures Latest(Backlog(s), n) ==
      if Latest(Backlog(s'), n).Some? then Latest(Backlog(s'), n)
      else if s.phase.ev.name == n then Some(s.phase.ev) else None
    ensures DeleteLeft(s, n) <==> DeleteLeft(s', n) || s.phase.ev == Event(FunctionDelete, n)
  {
    var rest := s.chan + s.unsent;
    assert Backlog(s) == [s.phase.ev] + rest && Backlog(s') == rest;
    LatestCons(s.phase.ev, rest, n);
  }

  lemma FetchHealsIff(s: System, n: string)
    requires Named(s) && Enabled(s, Fetch)
    ensures Heals(Apply(s, Fetch), n) <==> Heals(s, n)
  {
    TakesUp(s, Apply(s, Fetch), n);
    hide Latest, DeleteLeft, Backlog;
  }

  lemma ApplyPutHealsIff(s: System, n: string)
    requires Enabled(s, ApplyPut)
    ensures Heals(Apply(s, ApplyPut), n) <==> Heals(s, n)
  {
    assert Backlog(Apply(s, ApplyPut)) == Backlog(s);
    hide Latest, Backlog;
  }

  lemma ApplyDeleteHealsIff(s: System, n: string)
    requires Named(s) && Enabled(s, ApplyDelete)
    ensures Heals(Apply(s, ApplyDelete), n) <==> Heals(s, n)
  {
    TakesUp(s, Apply(s, ApplyDelete), n);
    assert s.phase.ev == Event(FunctionDelete, s.phase.ev.name);
    hide Latest, DeleteLeft, Backlog;
  }

  /** Nothing that happens on the way to rest decides anything. */
  lemma QuietHealsIff(s: System, a: Step, n: string)
    requires Named(s) && IsQuiet(a) && Enabled(s, a)
    ensures Heals(Apply(s, a), n) <==> Heals(s, n)
  {
    match a
    case Notify(_) => NotifyFirst(s); hide Latest, Backlog;
    case Receive => assert Backlog(Apply(s, Receive)) == Backlog(s); hide Latest, Backlog;
    case Fetch => FetchHealsIff(s, n);
    case ApplyPut => ApplyPutHealsIff(s, n);
    case ApplyDelete => ApplyDeleteHealsIff(s, n);
  }

  lemma {:induction false} PathHealsIff(path: seq<System>, i: nat, n: string)
    requires QuietPath(path) && Named(path[0]) && i < |path|
    ensures Named(path[i]) && (Heals(path[i], n) <==> Heals(path[0], n))
  {
    hide Named, Heals, Apply, Enabled;
    if i > 0 {
      PathHealsIff(path, i - 1, n);
      assert QuietMove(path[i - 1], path[i - 1 + 1]);
      var a :| IsQuiet(a) && Enabled(path[i - 1], a) && path[i] == Apply(path[i - 1], a);
      QuietHealsIff(path[i - 1], a, n);
      StepKeepsNamed(path[i - 1], a);
    }
  }

  /** How many steps are left until rest, at most. */
  function Work(s: System): nat {
    4 * |s.unsent| + 3 * |s.chan| + (match s.phase case Waiting => 0 case Handling(_) => 2 case Fetched(_) => 1)
  }

  lemma QuietStep(s: System) returns (a: Step)
    requires Named(s) && !Resting(s)
    ensures IsQuiet(a) && Enabled(s, a) && Work(Apply(s, a)) < Work(s)
  {
    if s.phase.Fetched? {
      a := ApplyPut;
    } else if s.phase.Handling? {
      assert Backlog(s)[0] == s.phase.ev;
      a := if s.phase.ev.kind.FunctionPut? then Fetch else ApplyDelete;
    } else {
      a := if s.chan != [] then Receive else Notify(0);
    }
  }

  /** The gateway can always come to rest. */
  lemma {:induction false} ComesToRest(s: System) returns (path: seq<System>)
    requires Named(s)
    ensures QuietPath(path) && path[0] == s && Resting(path[|path| - 1])
    decreases Work(s)
  {
    path := [s];
    if !Resting(s) {
      var a := QuietStep(s);
      StepKeepsNamed(s, a);
      hide Named, Apply, Enabled, Resting, Work, IsQuiet;
      var s' := Apply(s, a);
      assert QuietMove(s, s');
      var rest := ComesToRest(s');
      path := [s] + rest;
      forall i | 0 <= i < |path| - 1 ensures QuietMove(path[i], path[i + 1]) {
        if i > 0 { assert QuietMove(rest[i - 1], rest[i - 1 + 1]); }
      }
    }
  }

  /** The condition is exact. */
  lemma RestsRightIff(s: System, n: string)
    requires Named(s)
    ensures RestsRight(s, n) <==> Heals(s, n)
  {
    hide Named, Heals, Resting, Mirrors;
    if Heals(s, n) {
      forall path | QuietPath(path) && path[0] == s && Resting(path[|path| - 1]) ensures Mirrors(path[|path| - 1], n) {
        PathHealsIff(path, |path| - 1, n);
        AtRest(path[|path| - 1], n);
      }
    } else {
      var path := ComesToRest(s);
      PathHealsIff(path, |path| - 1, n);
      AtRest(path[|path| - 1], n);
    }
  }

  // --- Which steps do harm ---

  /** Announcing the k-th write now: harmful only for a stored name, if the latest
      write left to it is a delete. */
  predicate Announceable(s: System, k: nat)
    requires k < |s.unsent|
  {
    var n := s.unsent[k].name;
    var left := Latest(RemoveAt(s.unsent, k), n);
    n in s.store ==> left.None? || left.value.kind.FunctionPut?
  }

  /** The k-th announcement is not missed: for a stored name a put is left as the
      latest event, or none is needed; for another name a delete is left, or the
      gateway has never heard of it. */
  predicate Dispensable(s: System, k: nat)
    requires k < |s.unsent|
  {
    var n, left := s.unsent[k].name, Absorbing(s) + RemoveAt(s.unsent, k);
    if n in s.store then
      match Latest(left, n)
      case Some(ev) => ev.kind.FunctionPut?
      case None => if InHand(s, n) then Normalise(s.phase.def) == Normalise(s.store[n]) else Mirrors(s, n)
    else Event(FunctionDelete, n) in left || (n !in s.cache && !InHand(s, n))
  }

  predicate Harmless(s: System, a: Step) {
    match a
    case Notify(k) => k < |s.unsent| && Announceable(s, k)
    case Lose(k) => k < |s.unsent| && Dispensable(s, k)
    case LocalPut(def) => if def.name in s.store then Current(s, def) else DeleteLeft(s, def.name)
    case LocalDelete(name) => name !in s.store || Latest(Backlog(s), name).Some? || InHand(s, name)
    case _ => true
  }

  lemma WriteHeals(s: System, a: Step, n: string)
    requires Heals(s, n) && (a.Put? || a.Delete?)
    ensures Heals(Apply(s, a), n)
  {
    var ev := if a.Put? then Event(FunctionPut, a.def.name) else Event(FunctionDelete, a.name);
    WriteChange(s, Apply(s, a), ev, n);
    assert Backlog(Apply(s, a)) == Backlog(s) + [ev];
    hide Latest, Backlog;
  }

  lemma SameEvents(s: System, k: nat, n: string)
    requires Enabled(s, Notify(k))
    ensures DeleteLeft(Apply(s, Notify(k)), n) <==> DeleteLeft(s, n)
  {
    assert s.unsent == s.unsent[..k] + [s.unsent[k]] + s.unsent[k + 1..];
    assert Backlog(Apply(s, Notify(k))) == Absorbing(s) + [s.unsent[k]] + RemoveAt(s.unsent, k);
  }

  lemma OthersLeft(s: System, k: nat, n: string)
    requires Enabled(s, Lose(k)) && n != s.unsent[k].name
    ensures DeleteLeft(Apply(s, Lose(k)), n) <==> DeleteLeft(s, n)
  {
    assert s.unsent == s.unsent[..k] + [s.unsent[k]] + s.unsent[k + 1..];
    assert Backlog(Apply(s, Lose(k))) == Absorbing(s) + RemoveAt(s.unsent, k);
  }

  lemma NotifyHealsIff(s: System, k: nat, n: string)
    requires Named(s) && Heals(s, n) && Enabled(s, Notify(k))
    ensures Heals(Apply(s, Notify(k)), n) <==> (n == s.unsent[k].name ==> Announceable(s, k))
  {
    NotifyChange(s, k, n);
    SameEvents(s, k, n);
    LatestRemoved(s.unsent, k, n);
    hide Latest, RemoveAt, DeleteLeft, Backlog;
  }

  lemma LoseHealsIff(s: System, k: nat, n: string)
    requires Heals(s, n) && Enabled(s, Lose(k))
    ensures Heals(Apply(s, Lose(k)), n) <==> (n == s.unsent[k].name ==> Dispensable(s, k))
  {
    LoseChange(s, k, n);
    if n != s.unsent[k].name { OthersLeft(s, k, n); }
    hide Latest, RemoveAt, Absorbing;
  }

  lemma LocalHealsIff(s: System, a: Step, n: string)
    requires Heals(s, n) && (a.LocalPut? || a.LocalDelete?)
    ensures Heals(Apply(s, a), n) <==> (n == (if a.LocalPut? then a.def.name else a.name) ==> Harmless(s, a))
  {
    assert Backlog(Apply(s, a)) == Backlog(s);
    hide Latest, Backlog;
  }

  /** The name a step is about. */
  function NameOf(s: System, a: Step): string
    requires Enabled(s, a)
  {
    match a
    case Notify(k) => s.unsent[k].name
    case Lose(k) => s.unsent[k].name
    case LocalPut(def) => def.name
    case LocalDelete(name) => name
    case _ => ""
  }

  lemma StepHealsIff(s: System, a: Step, n: string)
    requires Named(s) && Heals(s, n) && Enabled(s, a)
    ensures Heals(Apply(s, a), n) <==> (n == NameOf(s, a) ==> Harmless(s, a))
  {
    match a
    case Put(_) => WriteHeals(s, a, n);
    case Delete(_) => WriteHeals(s, a, n);
    case Notify(k) => NotifyHealsIff(s, k, n);
    case Lose(k) => LoseHealsIff(s, k, n);
    case LocalPut(_) => LocalHealsIff(s, a, n);
    case LocalDelete(_) => LocalHealsIff(s, a, n);
    case _ => QuietHealsIff(s, a, n);
  }

  // --- Main results ---

  ghost predicate AllRestRight(s: System) { forall n :: RestsRight(s, n) }

  /** Of a gateway whose cache would come to rest right: after any step it still would
      if and only if the step is harmless. */
  lemma HarmlessIff(s: System, a: Step)
    requires Named(s) && AllRestRight(s) && Enabled(s, a)
    ensures AllRestRight(Apply(s, a)) <==> Harmless(s, a)
  {
    StepKeepsNamed(s, a);
    hide Named, Heals, RestsRight, Harmless, Apply, Enabled, NameOf;
    forall n ensures RestsRight(Apply(s, a), n) <==> (n == NameOf(s, a) ==> Harmless(s, a)) {
      RestsRightIff(s, n);
      assert RestsRight(s, n);
      StepHealsIff(s, a, n);
      RestsRightIff(Apply(s, a), n);
    }
    assert AllRestRight(Apply(s, a)) ==> RestsRight(Apply(s, a), NameOf(s, a));
  }

  /** After any other step the gateway, left alone, comes to rest with a wrong cache. */
  lemma HarmfulDiverges(s: System, a: Step) returns (path: seq<System>, n: string)
    requires Named(s) && AllRestRight(s) && Enabled(s, a) && !Harmless(s, a)
    ensures QuietPath(path) && path[0] == Apply(s, a) && Stuck(path[|path| - 1], n)
  {
    HarmlessIff(s, a);
    StepKeepsNamed(s, a);
    n :| !RestsRight(Apply(s, a), n);
    path :| QuietPath(path) && path[0] == Apply(s, a) && Resting(path[|path| - 1]) && !Mirrors(path[|path| - 1], n);
    hide Apply, Enabled, QuietPath, Mirrors, Harmless, Named;
    assert Backlog(path[|path| - 1]) == [];
  }

  ghost predicate HarmlessMove(s: System, s': System) {
    exists a :: Enabled(s, a) && Harmless(s, a) && s' == Apply(s, a)
  }

  ghost predicate HarmlessRun(run: seq<System>) {
    && |run| > 0 && Init(run[0])
    && forall i :: 0 <= i < |run| - 1 ==> HarmlessMove(run[i], run[i + 1])
  }

  lemma InitRestsRight(s: System)
    requires Init(s)
    ensures Named(s) && AllRestRight(s)
  {
    assert Backlog(s) == [];
    forall n ensures RestsRight(s, n) { RestsRightIff(s, n); }
  }

  /** Through any run of harmless steps, whatever else is crossed or lost on the way,
      the cache is right whenever it comes to rest. */
  lemma {:induction false} CacheRestsRight(run: seq<System>, i: nat)
    requires HarmlessRun(run) && i < |run|
    ensures Named(run[i]) && AllRestRight(run[i])
    ensures Resting(run[i]) ==> forall n :: Mirrors(run[i], n)
  {
    hide Named, AllRestRight, Apply, Enabled, Harmless, Init;
    if i == 0 {
      InitRestsRight(run[0]);
    } else {
      CacheRestsRight(run, i - 1);
      assert HarmlessMove(run[i - 1], run[i - 1 + 1]);
      var a :| Enabled(run[i - 1], a) && Harmless(run[i - 1], a) && run[i] == Apply(run[i - 1], a);
      StepKeepsNamed(run[i - 1], a);
      HarmlessIff(run[i - 1], a);
    }
    if Resting(run[i]) { RightNow(run[i]); }
  }

  lemma RightNow(s: System)
    requires Resting(s) && AllRestRight(s)
    ensures forall n :: Mirrors(s, n)
  {
    forall n ensures Mirrors(s, n) {
      assert RestsRight(s, n);
      var path := [s];
      assert QuietPath(path);
    }
  }

  // --- From the writes to the cache ---

  /** acts[t] is the step from run[t] to run[t + 1]. */
  ghost predicate IsTrace(run: seq<System>, acts: seq<Step>) {
    && |run| == |acts| + 1 && Init(run[0])
    && forall t :: 0 <= t < |acts| ==>
        Enabled(run[t], acts[t]) && Harmless(run[t], acts[t]) && run[t + 1] == Apply(run[t], acts[t])
  }

  datatype Write = Untouched | Wrote(def: FunctionDef) | Removed

  /** The last write to the store about n among the first k steps. */
  function LastWrite(acts: seq<Step>, k: nat, n: string): Write
    requires k <= |acts|
  {
    if k == 0 then Untouched
    else if acts[k - 1].Put? && acts[k - 1].def.name == n then Wrote(acts[k - 1].def)
    else if acts[k - 1].Delete? && acts[k - 1].name == n then Removed
    else LastWrite(acts, k - 1, n)
  }

  lemma OneWrite(s: System, a: Step, n: string)
    requires Enabled(s, a)
    ensures var s' := Apply(s, a);
      if a.Put? && a.def.name == n then n in s'.store && s'.store[n] == WithProject(a.def)
      else if a.Delete? && a.name == n then n !in s'.store
      else (n in s'.store <==> n in s.store) && (n in s.store ==> s'.store[n] == s.store[n])
  {
  }

  lemma {:induction false} StoreHoldsLastWrite(run: seq<System>, acts: seq<Step>, k: nat, n: string)
    requires IsTrace(run, acts) && k <= |acts|
    ensures match LastWrite(acts, k, n)
      case Wrote(def) => n in run[k].store && run[k].store[n] == WithProject(def)
      case Removed => n !in run[k].store
      case Untouched => n in run[k].store <==> n in run[0].store
  {
    if k > 0 {
      hide Enabled, Apply, Harmless, Init;
      StoreHoldsLastWrite(run, acts, k - 1, n);
      assert Enabled(run[k - 1], acts[k - 1]) && run[k - 1 + 1] == Apply(run[k - 1], acts[k - 1]);
      OneWrite(run[k - 1], acts[k - 1], n);
    }
  }

  lemma TraceIsHarmless(run: seq<System>, acts: seq<Step>)
    requires IsTrace(run, acts)
    ensures HarmlessRun(run)
  {
    hide Enabled, Apply, Harmless, Init;
    forall t | 0 <= t < |run| - 1 ensures HarmlessMove(run[t], run[t + 1]) {
      assert Enabled(run[t], acts[t]) && Harmless(run[t], acts[t]) && run[t + 1] == Apply(run[t], acts[t]);
    }
  }

  /** From the writers to the gateway: at rest the cache holds the definition that was
      put last, with the default project and the default limit filled in, and nothing
      under a name that was deleted last. */
  lemma CacheHoldsLastWrite(run: seq<System>, acts: seq<Step>, n: string)
    requires IsTrace(run, acts) && Resting(run[|acts|])
    ensures var cache := run[|acts|].cache;
      match LastWrite(acts, |acts|, n)
      case Wrote(def) =>
        && n in cache && cache[n].name == n && cache[n].spec == def.spec
        && cache[n].project == (if def.project == "" then "default" else def.project)
        && cache[n].maxConcurrency == (if def.maxConcurrency >= 1 then def.maxConcurrency else 4)
      case Removed => n !in cache
      case Untouched => n in cache <==> n in run[0].cache
  {
    TraceIsHarmless(run, acts);
    CacheRestsRight(run, |acts|);
    StoreHoldsLastWrite(run, acts, |acts|, n);
    WroteIsNamed(acts, |acts|, n);
    assert Mirrors(run[|acts|], n);
    assert run[0].cache.Keys == run[0].store.Keys;
    hide Enabled, Apply, Harmless, Resting;
  }

  lemma {:induction false} WroteIsNamed(acts: seq<Step>, k: nat, n: string)
    requires k <= |acts|
    ensures LastWrite(acts, k, n).Wrote? ==> LastWrite(acts, k, n).def.name == n
  {
    if k > 0 { WroteIsNamed(acts, k - 1, n); }
  }

  /** A delete and a put of an absent name: announced the wrong way round they upset
      the invariant of FunctionCache and do no harm. */
  lemma LatePutIsHarmless(def: FunctionDef) returns (s: System)
    ensures Inv(s) && AllRestRight(s) && Enabled(s, Notify(1))
    ensures !Inv(Apply(s, Notify(1))) && AllRestRight(Apply(s, Notify(1)))
  {
    var n, start := def.name, System(map[], [], [], Waiting, map[]);
    var one := Apply(start, Put(def));
    s := Apply(one, Delete(n));
    InitRestsRight(start);
    InitHolds(start);
    HarmlessIff(start, Put(def));
    StepKeepsInv(start, Put(def));
    StepKeepsNamed(start, Put(def));
    HarmlessIff(one, Delete(n));
    StepKeepsInv(one, Delete(n));
    assert s.unsent == [Event(FunctionPut, n), Event(FunctionDelete, n)];
    hide Inv, AllRestRight, Init;
    HarmlessIff(s, Notify(1));
    NotifyIsSafeIff(s, 1);
    assert RemoveAt(s.unsent, 1) == [Event(FunctionPut, n)];
  }
}
