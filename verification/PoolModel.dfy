/** The per-function instance pool of the gateway as a transition system.

    Every request that calls `acquire` has a program counter.  A step is one
    critical section of the pool mutex, one atomic operation on a busy lock, or
    one atomic counter update.  The scan over the instances is one step per
    instance: the scanning request keeps the pool mutex, but busy locks can be
    released under it, because `release` unlocks before it takes the mutex. */
module PoolModel {
  import opened Filtering

  type Request = nat
  type Inst = nat

  datatype Meter = Invokes | Errors | Nanos

  /** The atomic counters of one instance, or a sum of them. */
  datatype Tally = Tally(invokes: nat, errors: nat, nanos: int) {
    function Plus(other: Tally): Tally {
      Tally(invokes + other.invokes, errors + other.errors, nanos + other.nanos)
    }

    function At(m: Meter): int {
      match m
      case Invokes => invokes
      case Errors => errors
      case Nanos => nanos
    }
  }

  function Zero(): Tally { Tally(0, 0, 0) }

  /** How far a request that holds an instance has come with its bookkeeping. */
  datatype Stage = Calling | Counted | Settled

  datatype Pc =
    | WantLock                         // has the pool, waits for its mutex
    | Scanning(next: nat)              // holds the mutex, will try instance `next`
    | Asleep                           // inside cond.Wait
    | Spawning                         // holds a spawn slot, outside the mutex
    | Holding(inst: Inst, stage: Stage)
    | Unlocked                         // busy lock dropped, broadcast still to come

  datatype MutexOwner = Nobody | ByRequest(r: Request) | ByReaper

  datatype Reaper = Resting | Reaping(next: nat, kept: seq<Inst>, victims: seq<Inst>)

  /** `floor` remembers the answered total at the moment of the snapshot. */
  datatype Reporter = Quiet | Reporting(next: nat, snap: seq<Inst>, sum: Tally, floor: Tally)

  datatype Pool = Pool(
    maxSize: nat,
    registered: bool,                  // still in the gateway's pool map
    drained: bool,                     // closeAll has taken the instances
    instances: seq<Inst>,
    spawning: int,
    busy: set<Inst>,                   // busy locks that are taken
    mu: MutexOwner,
    pcs: map<Request, Pc>,
    reaper: Reaper,
    reporter: Reporter,
    tally: map<Inst, Tally>,           // counters of every instance ever spawned
    lifetime: Tally,
    reaped: set<Inst>,                 // every instance the reaper ever removed
    doomed: set<Inst>,                 // removed by the reaper, not closed yet
    orphans: set<Inst>,                // taken by closeAll, not closed yet
    closes: map<Inst, nat>,            // how often each instance was closed
    answered: Tally,                   // history: every counter update ever made
    reports: seq<Tally>)               // history: what Stats has reported
  {
    /** The reaper and Stats hold the gateway mutex for their whole pass. */
    predicate GatewayFree() { reaper.Resting? && reporter.Quiet? }
  }

  datatype Step =
    | Arrive(r: Request)
    | Lock(r: Request)
    | TryInstance(r: Request)
    | Decide(r: Request)
    | SpawnOk(r: Request, x: Inst)
    | SpawnFail(r: Request)
    | CountInvoke(r: Request)
    | CountNanos(r: Request, nanos: int)
    | CountError(r: Request)
    | Unlock(r: Request)
    | Signal(r: Request)
    | ReapStart
    | ReapTry(expired: bool)
    | ReapEnd
    | ReapClose(x: Inst)
    | ReportStart
    | ReportRead
    | ReportEnd
    | Detach
    | Drain
    | OrphanClose(x: Inst)

  /** sync.Cond Broadcast: every sleeper goes back to queue for the mutex. */
  function Broadcast(pcs: map<Request, Pc>): map<Request, Pc> {
    map r | r in pcs :: if pcs[r].Asleep? then WantLock else pcs[r]
  }

  /** What Stats puts into one row: with no warm instance and no successful
      invoke the row keeps its zero values. */
  function Row(warm: bool, sum: Tally): Tally {
    if warm || sum.invokes > 0 then sum else Zero()
  }

  function Counters(s: Pool, x: Inst): Tally { if x in s.tally then s.tally[x] else Zero() }

  function Closed(s: Pool, x: Inst): nat { if x in s.closes then s.closes[x] else 0 }

  predicate Enabled(s: Pool, a: Step) {
    match a
    case Arrive(r) => r !in s.pcs && s.registered && s.GatewayFree()
    case Lock(r) => r in s.pcs && s.pcs[r].WantLock? && s.mu.Nobody?
    case TryInstance(r) => r in s.pcs && s.pcs[r].Scanning? && s.pcs[r].next < |s.instances|
    case Decide(r) => r in s.pcs && s.pcs[r].Scanning? && s.pcs[r].next >= |s.instances|
    case SpawnOk(r, x) => r in s.pcs && s.pcs[r].Spawning? && s.mu.Nobody? && x !in s.tally
    case SpawnFail(r) => r in s.pcs && s.pcs[r].Spawning? && s.mu.Nobody?
    case CountInvoke(r) => r in s.pcs && s.pcs[r].Holding? && s.pcs[r].stage.Calling?
    case CountNanos(r, _) => r in s.pcs && s.pcs[r].Holding? && s.pcs[r].stage.Counted?
    case CountError(r) => r in s.pcs && s.pcs[r].Holding? && s.pcs[r].stage.Calling?
    case Unlock(r) => r in s.pcs && s.pcs[r].Holding? && !s.pcs[r].stage.Counted?
    case Signal(r) => r in s.pcs && s.pcs[r].Unlocked? && s.mu.Nobody?
    case ReapStart => s.registered && s.GatewayFree() && s.mu.Nobody?
    case ReapTry(_) => s.reaper.Reaping? && s.reaper.next < |s.instances|
    case ReapEnd => s.reaper.Reaping? && s.reaper.next >= |s.instances|
    case ReapClose(x) => x in s.doomed
    case ReportStart => s.registered && s.GatewayFree() && s.mu.Nobody?
    case ReportRead => s.reporter.Reporting? && s.reporter.next < |s.reporter.snap|
    case ReportEnd => s.reporter.Reporting? && s.reporter.next >= |s.reporter.snap|
    case Detach => s.registered && s.GatewayFree()
    case Drain => !s.registered && !s.drained && s.mu.Nobody?
    case OrphanClose(x) => x in s.orphans
  }

  function Apply(s: Pool, a: Step): Pool
    requires Enabled(s, a)
  {
    match a
    case Arrive(r) => s.(pcs := s.pcs[r := WantLock])
    case Lock(r) => s.(pcs := s.pcs[r := Scanning(0)], mu := ByRequest(r))
    case TryInstance(r) =>
      var x := s.instances[s.pcs[r].next];
      if x !in s.busy
      then s.(busy := s.busy + {x}, pcs := s.pcs[r := Holding(x, Calling)], mu := Nobody)
      else s.(pcs := s.pcs[r := Scanning(s.pcs[r].next + 1)])
    case Decide(r) =>
      if |s.instances| + s.spawning < s.maxSize
      then s.(spawning := s.spawning + 1, pcs := s.pcs[r := Spawning], mu := Nobody)
      else s.(pcs := s.pcs[r := Asleep], mu := Nobody)
    case SpawnOk(r, x) =>
      s.(spawning := s.spawning - 1, instances := s.instances + [x], busy := s.busy + {x},
         tally := s.tally[x := Zero()], closes := s.closes[x := 0], pcs := s.pcs[r := Holding(x, Calling)])
    case SpawnFail(r) =>
      s.(spawning := s.spawning - 1, pcs := Broadcast(s.pcs - {r}))
    case CountInvoke(r) => Count(s, r, Tally(1, 0, 0), Counted)
    case CountNanos(r, nanos) => Count(s, r, Tally(0, 0, nanos), Settled)
    case CountError(r) => Count(s, r, Tally(0, 1, 0), Settled)
    case Unlock(r) => s.(busy := s.busy - {s.pcs[r].inst}, pcs := s.pcs[r := Unlocked])
    case Signal(r) => s.(pcs := Broadcast(s.pcs - {r}))
    case ReapStart => s.(reaper := Reaping(0, [], []), mu := ByReaper)
    case ReapTry(expired) =>
      var w := s.reaper;
      var x := s.instances[w.next];
      if x in s.busy || !expired
      then s.(reaper := Reaping(w.next + 1, w.kept + [x], w.victims))
      else s.(reaper := Reaping(w.next + 1, w.kept, w.victims + [x]), busy := s.busy + {x},
              lifetime := s.lifetime.Plus(Counters(s, x)))
    case ReapEnd =>
      var gone := Elements(s.reaper.victims);
      s.(instances := s.reaper.kept, reaped := s.reaped + gone, doomed := s.doomed + gone,
         pcs := if |s.reaper.kept| != |s.instances| then Broadcast(s.pcs) else s.pcs,
         reaper := Resting, mu := Nobody)
    case ReapClose(x) =>
      s.(closes := s.closes[x := Closed(s, x) + 1], doomed := s.doomed - {x}, busy := s.busy - {x})
    case ReportStart => s.(reporter := Reporting(0, s.instances, s.lifetime, s.answered))
    case ReportRead =>
      var p := s.reporter;
      s.(reporter := p.(next := p.next + 1, sum := p.sum.Plus(Counters(s, p.snap[p.next]))))
    case ReportEnd =>
      s.(reports := s.reports + [Row(s.reporter.snap != [], s.reporter.sum)], reporter := Quiet)
    case Detach => s.(registered := false)
    case Drain => s.(orphans := s.orphans + Elements(s.instances), instances := [], drained := true)
    case OrphanClose(x) => s.(closes := s.closes[x := Closed(s, x) + 1], orphans := s.orphans - {x})
  }

  /** One atomic addition to a counter of the instance that r holds. */
  function Count(s: Pool, r: Request, d: Tally, stage: Stage): Pool
    requires r in s.pcs && s.pcs[r].Holding?
  {
    var x := s.pcs[r].inst;
    s.(tally := s.tally[x := Counters(s, x).Plus(d)], answered := s.answered.Plus(d),
        pcs := s.pcs[r := Holding(x, stage)])
  }

  /** newPool, right after it was put into the gateway's map.  applyPut has
      replaced a non-positive MaxConcurrency, so maxSize is at least one. */
  predicate Init(s: Pool) {
    && s.maxSize >= 1 && s.registered && !s.drained
    && s.instances == [] && s.spawning == 0 && s.busy == {} && s.mu.Nobody? && s.pcs == map[]
    && s.reaper.Resting? && s.reporter.Quiet?
    && s.tally == map[] && s.lifetime == Zero() && s.answered == Zero() && s.reports == []
    && s.reaped == {} && s.doomed == {} && s.orphans == {} && s.closes == map[]
  }

  ghost predicate Next(s: Pool, s': Pool) {
    exists a :: Enabled(s, a) && s' == Apply(s, a)
  }

  ghost predicate IsRun(run: seq<Pool>) {
    && |run| > 0 && Init(run[0])
    && forall i :: 0 <= i < |run| - 1 ==> Next(run[i], run[i + 1])
  }

  /** A request can finish its work without anybody else's help. */
  predicate Active(pc: Pc) { pc.Holding? || pc.Spawning? || pc.Unlocked? }

  predicate Counts(a: Step) { a.CountInvoke? || a.CountNanos? || a.CountError? }

  /** Steps that move no program counter. */
  predicate Service(a: Step) {
    || a.ReapStart? || a.ReapTry? || a.ReapClose?
    || a.ReportStart? || a.ReportRead? || a.ReportEnd?
    || a.Detach? || a.Drain? || a.OrphanClose?
  }

  /** Which step touches which part of the state. */
  lemma Frame(s: Pool, a: Step)
    requires Enabled(s, a)
    ensures var s' := Apply(s, a);
      && (!a.Detach? ==> s'.registered == s.registered)
      && s'.drained == (s.drained || a.Drain?)
  {
  }

  lemma FrameList(s: Pool, a: Step)
    requires Enabled(s, a)
    ensures var s' := Apply(s, a);
      && (!a.SpawnOk? && !a.ReapEnd? && !a.Drain? ==> s'.instances == s.instances)
      && (!a.Decide? && !a.SpawnOk? && !a.SpawnFail? ==> s'.spawning == s.spawning)
  {
  }

  predicate KeepsLocks(s: Pool, a: Step, s': Pool) {
    && (!a.TryInstance? && !a.SpawnOk? && !a.Unlock? && !a.ReapTry? && !a.ReapClose? ==> s'.busy == s.busy)
    && (!a.Lock? && !a.TryInstance? && !a.Decide? && !a.ReapStart? && !a.ReapEnd? ==> s'.mu == s.mu)
    && (Service(a) ==> s'.pcs == s.pcs)
  }

  predicate KeepsServices(s: Pool, a: Step, s': Pool) {
    && (!a.ReapStart? && !a.ReapTry? && !a.ReapEnd? ==> s'.reaper == s.reaper)
    && (!a.ReportStart? && !a.ReportRead? && !a.ReportEnd? ==> s'.reporter == s.reporter)
    && (!a.SpawnOk? && !Counts(a) ==> s'.tally == s.tally)
    && (!a.ReapTry? ==> s'.lifetime == s.lifetime)
    && (!Counts(a) ==> s'.answered == s.answered)
    && (!a.ReportEnd? ==> s'.reports == s.reports)
  }

  predicate KeepsOwners(s: Pool, a: Step, s': Pool) {
    && s'.maxSize == s.maxSize
    && (!a.ReapEnd? ==> s'.reaped == s.reaped)
    && (!a.ReapEnd? && !a.ReapClose? ==> s'.doomed == s.doomed)
    && (!a.Drain? && !a.OrphanClose? ==> s'.orphans == s.orphans)
    && (!a.SpawnOk? && !a.ReapClose? && !a.OrphanClose? ==> s'.closes == s.closes)
  }

  /** Steps of acquire until an instance is held. */
  predicate Seeks(a: Step) { a.Arrive? || a.Lock? || a.Decide? || Gets(a) }

  predicate Gets(a: Step) { a.TryInstance? || a.SpawnOk? }

  /** Steps of a request from then on. */
  predicate Leaves(a: Step) { a.SpawnFail? || Counts(a) || a.Unlock? || a.Signal? }

  predicate Reaps(a: Step) { a.ReapStart? || a.ReapTry? || a.ReapEnd? || a.ReapClose? }

  lemma FrameSeeking(s: Pool, a: Step)
    requires Enabled(s, a) && (a.Arrive? || a.Lock? || a.Decide?)
    ensures KeepsLocks(s, a, Apply(s, a)) && KeepsServices(s, a, Apply(s, a)) && KeepsOwners(s, a, Apply(s, a))
  {
  }

  lemma FrameGetting(s: Pool, a: Step)
    requires Enabled(s, a) && Gets(a)
    ensures KeepsLocks(s, a, Apply(s, a)) && KeepsServices(s, a, Apply(s, a)) && KeepsOwners(s, a, Apply(s, a))
  {
  }

  lemma FrameLeaving(s: Pool, a: Step)
    requires Enabled(s, a) && Leaves(a)
    ensures KeepsLocks(s, a, Apply(s, a)) && KeepsServices(s, a, Apply(s, a)) && KeepsOwners(s, a, Apply(s, a))
  {
  }

  lemma FrameReaping(s: Pool, a: Step)
    requires Enabled(s, a) && (a.ReapStart? || a.ReapTry?)
    ensures KeepsLocks(s, a, Apply(s, a)) && KeepsServices(s, a, Apply(s, a)) && KeepsOwners(s, a, Apply(s, a))
  {
  }

  lemma FrameReaped(s: Pool, a: Step)
    requires Enabled(s, a) && (a.ReapEnd? || a.ReapClose?)
    ensures KeepsLocks(s, a, Apply(s, a)) && KeepsServices(s, a, Apply(s, a)) && KeepsOwners(s, a, Apply(s, a))
  {
  }

  lemma FrameOthers(s: Pool, a: Step)
    requires Enabled(s, a) && !Seeks(a) && !Leaves(a) && !Reaps(a)
    ensures KeepsLocks(s, a, Apply(s, a)) && KeepsServices(s, a, Apply(s, a)) && KeepsOwners(s, a, Apply(s, a))
  {
  }

  lemma FrameRest(s: Pool, a: Step)
    requires Enabled(s, a)
    ensures KeepsLocks(s, a, Apply(s, a)) && KeepsServices(s, a, Apply(s, a)) && KeepsOwners(s, a, Apply(s, a))
  {
    hide Apply, Enabled, KeepsLocks, KeepsServices, KeepsOwners;
    if Gets(a) { FrameGetting(s, a); }
    else if Seeks(a) { FrameSeeking(s, a); }
    else if Leaves(a) { FrameLeaving(s, a); }
    else if a.ReapStart? || a.ReapTry? { FrameReaping(s, a); }
    else if Reaps(a) { FrameReaped(s, a); }
    else { FrameOthers(s, a); }
  }

  lemma FrameSize(s: Pool, a: Step)
    requires Enabled(s, a)
    ensures Apply(s, a).maxSize == s.maxSize
  {
    FrameRest(s, a);
    hide Apply, Enabled, KeepsLocks, KeepsServices;
  }

  lemma FrameLocks(s: Pool, a: Step)
    requires Enabled(s, a)
    ensures KeepsLocks(s, a, Apply(s, a))
  {
    hide *;
    FrameRest(s, a);
  }

  lemma FrameServices(s: Pool, a: Step)
    requires Enabled(s, a)
    ensures KeepsServices(s, a, Apply(s, a))
  {
    hide *;
    FrameRest(s, a);
  }

  lemma FrameOwners(s: Pool, a: Step)
    requires Enabled(s, a)
    ensures KeepsOwners(s, a, Apply(s, a))
  {
    hide *;
    FrameRest(s, a);
  }
}
