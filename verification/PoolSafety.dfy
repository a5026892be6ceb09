/** Capacity, exclusion and ownership in every reachable state of a pool,
    closed pools included. */
module PoolSafety {
  import opened Filtering
  import opened PoolModel

  // --- The inductive invariant, one predicate per concern ---

  /** The pool mutex is held by the one request that scans or by the reaper. */
  ghost predicate Mutex(s: Pool) {
    && (forall r :: s.mu == ByRequest(r) <==> r in s.pcs && s.pcs[r].Scanning?)
    && (s.mu.ByReaper? <==> s.reaper.Reaping?)
    && (s.drained ==> !s.registered)
    && (!s.GatewayFree() ==> s.registered && (s.reaper.Resting? || s.reporter.Quiet?))
  }

  /** Where an instance can be: in the list, with the reaper, or with closeAll. */
  ghost predicate Roster(s: Pool) {
    && Distinct(s.instances)
    && Elements(s.instances) <= s.tally.Keys
    && s.tally.Keys == s.closes.Keys
    && s.doomed <= s.reaped <= s.tally.Keys
    && s.orphans <= s.tally.Keys
    && Elements(s.instances) !! s.reaped
    && Elements(s.instances) !! s.orphans
    && s.reaped !! s.orphans
  }

  /** The reaper's in-place pass: kept and victims split the part it has seen. */
  ghost predicate Pass(s: Pool) {
    s.reaper.Reaping? ==>
      var w := s.reaper;
      && w.next <= |s.instances|
      && w.kept == Without(s.instances[..w.next], Elements(w.victims))
      && w.victims == Only(s.instances[..w.next], Elements(w.victims))
  }

  predicate Holds(s: Pool, r: Request) { r in s.pcs && s.pcs[r].Holding? }

  /** A held instance is locked, held once, and out of the reaper's hands. */
  ghost predicate Holders(s: Pool) {
    && (forall r :: Holds(s, r) ==>
          && s.pcs[r].inst in s.busy
          && s.pcs[r].inst in s.tally
          && s.pcs[r].inst !in s.reaped
          && (s.reaper.Reaping? ==> s.pcs[r].inst !in s.reaper.victims))
    && (forall q, r :: Holds(s, q) && Holds(s, r) && s.pcs[q].inst == s.pcs[r].inst ==> q == r)
  }

  function Spawners(pcs: map<Request, Pc>): set<Request> { set r | r in pcs && pcs[r].Spawning? }

  ghost predicate Capacity(s: Pool) {
    && s.maxSize >= 1
    && s.spawning == |Spawners(s.pcs)|
    && |s.instances| + s.spawning <= s.maxSize
  }

  /** Close is called at most once, and only after the instance left the list. */
  ghost predicate Closing(s: Pool) {
    && (forall x :: x in s.closes ==> s.closes[x] <= 1)
    && (forall x :: x in s.instances || x in s.doomed || x in s.orphans ==> Closed(s, x) == 0)
    && (forall x :: x in s.reaped && x !in s.doomed ==> Closed(s, x) == 1)
  }

  ghost predicate Inv(s: Pool) {
    Mutex(s) && Roster(s) && Pass(s) && Holders(s) && Capacity(s) && Closing(s)
  }

  // --- Every step keeps it ---

  lemma InitHolds(s: Pool)
    requires Init(s)
    ensures Inv(s)
  {
    assert Spawners(s.pcs) == {};
  }

  lemma MutexKept(s: Pool, a: Step)
    requires Mutex(s) && Enabled(s, a)
    ensures Mutex(Apply(s, a))
  {
    hide Apply, Enabled, Mutex;
    if a.Arrive? || a.Lock? || a.TryInstance? || a.Decide? {
      MutexAcquire(s, a);
    } else if a.SpawnOk? || a.SpawnFail? || Counts(a) || a.Unlock? || a.Signal? {
      MutexHold(s, a);
    } else {
      MutexService(s, a);
    }
  }

  lemma MutexAcquire(s: Pool, a: Step)
    requires Mutex(s) && Enabled(s, a)
    requires a.Arrive? || a.Lock? || a.TryInstance? || a.Decide?
    ensures Mutex(Apply(s, a))
  {
  }

  lemma MutexHold(s: Pool, a: Step)
    requires Mutex(s) && Enabled(s, a)
    requires a.SpawnOk? || a.SpawnFail? || Counts(a) || a.Unlock? || a.Signal?
    ensures Mutex(Apply(s, a))
  {
  }

  lemma MutexService(s: Pool, a: Step)
    requires Mutex(s) && Enabled(s, a)
    requires !a.Arrive? && !a.Lock? && !a.TryInstance? && !a.Decide?
    requires !a.SpawnOk? && !a.SpawnFail? && !Counts(a) && !a.Unlock? && !a.Signal?
    ensures Mutex(Apply(s, a))
  {
  }

  /** What the reaper is about to remove and keep, in terms of the whole list. */
  lemma PassEnds(s: Pool)
    requires Roster(s) && Pass(s) && Enabled(s, ReapEnd)
    ensures s.reaper.kept == Without(s.instances, Elements(s.reaper.victims))
    ensures s.reaper.victims == Only(s.instances, Elements(s.reaper.victims))
    ensures Elements(s.instances) == Elements(s.reaper.kept) + Elements(s.reaper.victims)
    ensures Elements(s.reaper.kept) !! Elements(s.reaper.victims)
    ensures Distinct(s.reaper.kept) && |s.reaper.kept| <= |s.instances|
    ensures |s.reaper.kept| == |s.instances| ==> s.reaper.kept == s.instances && s.reaper.victims == []
  {
    PassIsWhole(s);
    hide Without, Only, Enabled;
    FilterSplits(s.instances, Elements(s.reaper.victims));
  }

  /** What a filter does to a list without repetitions. */
  lemma FilterSplits(s: seq, dead: set)
    requires Distinct(s)
    ensures Elements(s) == Elements(Without(s, dead)) + Elements(Only(s, dead))
    ensures Elements(Without(s, dead)) !! Elements(Only(s, dead))
    ensures Distinct(Without(s, dead)) && |Without(s, dead)| <= |s|
    ensures |Without(s, dead)| == |s| ==> Without(s, dead) == s && Only(s, dead) == []
  {
    SplitElements(s, dead);
    DistinctFilters(s, dead);
    Shorter(s, dead);
    if |Without(s, dead)| == |s| { NothingRemoved(s, dead); }
  }

  lemma SplitElements(s: seq, dead: set)
    ensures Elements(s) == Elements(Without(s, dead)) + Elements(Only(s, dead))
    ensures Elements(Without(s, dead)) !! Elements(Only(s, dead))
  {
    var w, o := Without(s, dead), Only(s, dead);
    Membership(s, dead);
    assert forall x :: x in w <==> x in s && x !in dead;
    assert forall x :: x in o <==> x in s && x in dead;
    hide Without, Only;
    assert Elements(s) == Elements(w) + Elements(o);
  }

  lemma PassIsWhole(s: Pool)
    requires Pass(s) && Enabled(s, ReapEnd)
    ensures s.reaper.kept == Without(s.instances, Elements(s.reaper.victims))
    ensures s.reaper.victims == Only(s.instances, Elements(s.reaper.victims))
  {
    hide Without, Only;
    assert s.instances[..s.reaper.next] == s.instances;
  }

  /** What the end of a pass does to the state. */
  lemma ReapEndChange(s: Pool)
    requires Enabled(s, ReapEnd)
    ensures var s', gone := Apply(s, ReapEnd), Elements(s.reaper.victims);
      && s'.instances == s.reaper.kept && s'.reaped == s.reaped + gone && s'.doomed == s.doomed + gone
      && s.reaper.Reaping? && s'.reaper.Resting? && s'.tally == s.tally && s'.lifetime == s.lifetime &&
          s'.answered == s.answered
      && s'.closes == s.closes && s'.orphans == s.orphans && s'.drained == s.drained
  {
  }

  predicate Relists(a: Step) {
    a.SpawnOk? || a.ReapEnd? || a.ReapClose? || a.Drain? || a.OrphanClose?
  }

  lemma RosterMoves(s: Pool, a: Step)
    requires Roster(s) && Pass(s) && Enabled(s, a) && Relists(a)
    ensures Roster(Apply(s, a))
  {
    if a.SpawnOk? { assert Elements(Apply(s, a).instances) == Elements(s.instances) + {a.x}; }
    if a.ReapEnd? { PassEnds(s); }
  }

  lemma CountKeepsKeys(s: Pool, a: Step)
    requires Holders(s) && Enabled(s, a) && Counts(a)
    ensures Apply(s, a).tally.Keys == s.tally.Keys
  {
    assert Holds(s, a.r);
  }

  lemma RosterKept(s: Pool, a: Step)
    requires Roster(s) && Pass(s) && Holders(s) && Enabled(s, a)
    ensures Roster(Apply(s, a))
  {
    hide Apply, Enabled;
    FrameList(s, a);
    FrameServices(s, a);
    FrameOwners(s, a);
    if Relists(a) { RosterMoves(s, a); }
    else if Counts(a) { CountKeepsKeys(s, a); }
  }

  lemma PassTry(s: Pool, expired: bool)
    requires Roster(s) && Pass(s) && Enabled(s, ReapTry(expired))
    ensures Pass(Apply(s, ReapTry(expired)))
  {
    hide Apply, Roster, Pass;
    TryChange(s, expired);
    PassGrows(s, Apply(s, ReapTry(expired)));
  }

  lemma PassGrows(s: Pool, s': Pool)
    requires Roster(s) && Pass(s) && s.reaper.Reaping? && s.reaper.next < |s.instances|
    requires s'.instances == s.instances && s'.reaper.Reaping? && s'.reaper.next == s.reaper.next + 1
    requires var w, w', x := s.reaper, s'.reaper, s.instances[s.reaper.next];
      || (w'.kept == w.kept && w'.victims == w.victims + [x])
      || (w'.kept == w.kept + [x] && w'.victims == w.victims)
    ensures Pass(s')
  {
    var w, w', x := s.reaper, s'.reaper, s.instances[s.reaper.next];
    Membership(s.instances[..w.next], Elements(w.victims));
    hide Without, Only;
    assert x !in w.victims;
    assert Elements(w'.victims) == Elements(w.victims) + if x in w'.victims then {x} else {};
    FilterGrows(s.instances, w.next, Elements(w.victims), Elements(w'.victims));
  }

  lemma TryChange(s: Pool, expired: bool)
    requires Enabled(s, ReapTry(expired))
    ensures var w, s', x := s.reaper, Apply(s, ReapTry(expired)), s.instances[s.reaper.next];
      var caught := x !in s.busy && expired;
      && s'.instances == s.instances && s'.reaper.Reaping? && s'.reaper.next == w.next + 1
      && s'.reaper.kept == w.kept + (if caught then [] else [x])
      && s'.reaper.victims == w.victims + if caught then [x] else []
  {
  }

  /** Deciding about one more element decides about no earlier one. */
  lemma FilterGrows(xs: seq<Inst>, i: nat, dead: set<Inst>, dead': set<Inst>)
    requires Distinct(xs) && i < |xs|
    requires dead <= dead' <= dead + {xs[i]}
    requires xs[i] !in dead
    ensures Without(xs[..i + 1], dead') == Without(xs[..i], dead) + if xs[i] in dead' then [] else [xs[i]]
    ensures Only(xs[..i + 1], dead') == Only(xs[..i], dead) + if xs[i] in dead' then [xs[i]] else []
  {
    var before, seen := xs[..i], xs[..i + 1];
    assert seen[..i] == before && seen[i] == xs[i] && xs[i] !in before;
    SameFilters(before, dead, dead');
  }

  lemma PassKept(s: Pool, a: Step)
    requires Mutex(s) && Roster(s) && Pass(s) && Enabled(s, a)
    ensures Pass(Apply(s, a))
  {
    FrameList(s, a);
    FrameServices(s, a);
    if a.ReapTry? { PassTry(s, a.expired); }
  }

  lemma {:induction false} HoldersKept(s: Pool, a: Step)
    requires Mutex(s) && Roster(s) && Holders(s) && Enabled(s, a)
    ensures Holders(Apply(s, a))
  {
    hide Apply, Enabled;
    FrameLocks(s, a);
    FrameServices(s, a);
    FrameOwners(s, a);
    if a.TryInstance? || a.SpawnOk? { HoldersTake(s, a); }
    else if a.SpawnFail? || a.Unlock? || a.Signal? { HoldersLeave(s, a); }
    else if a.Arrive? || a.Lock? || a.Decide? { HoldersSeek(s, a); }
    else if Counts(a) { HoldersCount(s, a); }
    else if a.ReapStart? || a.ReapTry? || a.ReapEnd? || a.ReapClose? { HoldersReap(s, a); }
  }

  lemma HoldersTake(s: Pool, a: Step)
    requires Mutex(s) && Roster(s) && Holders(s) && Enabled(s, a) && (a.TryInstance? || a.SpawnOk?)
    ensures Holders(Apply(s, a))
  {
    var s' := Apply(s, a);
    assert forall r :: r != a.r ==> (Holds(s', r) <==> Holds(s, r));
  }

  lemma HoldersLeave(s: Pool, a: Step)
    requires Mutex(s) && Roster(s) && Holders(s) && Enabled(s, a) && (a.SpawnFail? || a.Unlock? || a.Signal?)
    ensures Holders(Apply(s, a))
  {
    var s' := Apply(s, a);
    assert forall r :: Holds(s', r) ==> Holds(s, r) && s'.pcs[r] == s.pcs[r];
  }

  lemma HoldersSeek(s: Pool, a: Step)
    requires Holders(s) && Enabled(s, a) && (a.Arrive? || a.Lock? || a.Decide?)
    ensures Holders(Apply(s, a))
  {
    var s' := Apply(s, a);
    assert forall r :: Holds(s', r) ==> Holds(s, r) && s'.pcs[r] == s.pcs[r];
  }

  lemma HoldersCount(s: Pool, a: Step)
    requires Holders(s) && Enabled(s, a) && Counts(a)
    ensures Holders(Apply(s, a))
  {
    var s' := Apply(s, a);
    assert forall r :: Holds(s', r) ==> Holds(s, r) && s'.pcs[r].inst == s.pcs[r].inst;
  }

  lemma HoldersReap(s: Pool, a: Step)
    requires Roster(s) && Holders(s) && Enabled(s, a)
    requires a.ReapStart? || a.ReapTry? || a.ReapEnd? || a.ReapClose?
    ensures Holders(Apply(s, a))
  {
    hide Apply, Enabled, Holders, Roster;
    if a.ReapEnd? { HoldersReaped(s); }
    else { HoldersReaping(s, a); }
  }

  lemma HoldersReaping(s: Pool, a: Step)
    requires Roster(s) && Holders(s) && Enabled(s, a) && (a.ReapStart? || a.ReapTry? || a.ReapClose?)
    ensures Holders(Apply(s, a))
  {
    assert Apply(s, a).pcs == s.pcs;
  }

  lemma HoldersReaped(s: Pool)
    requires Roster(s) && Holders(s) && Enabled(s, ReapEnd)
    ensures Holders(Apply(s, ReapEnd))
  {
    var s' := Apply(s, ReapEnd);
    assert forall r :: Holds(s', r) ==> Holds(s, r) && s'.pcs[r] == s.pcs[r];
  }

  lemma CapacityKept(s: Pool, a: Step)
    requires Roster(s) && Pass(s) && Capacity(s) && Enabled(s, a)
    ensures Capacity(Apply(s, a))
  {
    hide Apply, Enabled;
    FrameSize(s, a);
    FrameList(s, a);
    SpawnersMove(s, a);
    if a.SpawnOk? || a.ReapEnd? || a.Drain? { LengthMoves(s, a); }
  }

  lemma SpawnersMove(s: Pool, a: Step)
    requires Enabled(s, a)
    ensures var s' := Apply(s, a);
      && s'.spawning - |Spawners(s'.pcs)| == s.spawning - |Spawners(s.pcs)|
      && (s'.spawning > s.spawning ==> s'.spawning == s.spawning + 1 && |s.instances| + s.spawning < s.maxSize)
  {
    hide Apply;
    FrameList(s, a);
    FrameLocks(s, a);
    if a.Decide? {
      SlotTaken(s, a.r);
    } else if a.SpawnOk? {
      SlotFilled(s, a.r, a.x);
    } else if a.SpawnFail? {
      SlotGivenUp(s, a.r);
    } else if !Service(a) {
      SpawnersStay(s, a);
    }
  }

  lemma SlotTaken(s: Pool, r: Request)
    requires Enabled(s, Decide(r))
    ensures var s' := Apply(s, Decide(r));
      && s'.spawning - |Spawners(s'.pcs)| == s.spawning - |Spawners(s.pcs)|
      && (s'.spawning > s.spawning ==> s'.spawning == s.spawning + 1 && |s.instances| + s.spawning < s.maxSize)
  {
    SpawnersUpdate(s.pcs, r, Apply(s, Decide(r)).pcs[r]);
  }

  lemma SpawnersUpdate(pcs: map<Request, Pc>, r: Request, pc: Pc)
    requires r in pcs && !pcs[r].Spawning?
    ensures Spawners(pcs[r := pc]) == Spawners(pcs) + if pc.Spawning? then {r} else {}
  {
  }

  lemma SlotFilled(s: Pool, r: Request, x: Inst)
    requires Enabled(s, SpawnOk(r, x))
    ensures var s' := Apply(s, SpawnOk(r, x));
      s'.spawning == s.spawning - 1 && |Spawners(s'.pcs)| == |Spawners(s.pcs)| - 1
  {
    assert Spawners(Apply(s, SpawnOk(r, x)).pcs) == Spawners(s.pcs) - {r};
  }

  lemma SlotGivenUp(s: Pool, r: Request)
    requires Enabled(s, SpawnFail(r))
    ensures var s' := Apply(s, SpawnFail(r));
      s'.spawning == s.spawning - 1 && |Spawners(s'.pcs)| == |Spawners(s.pcs)| - 1
  {
    assert Spawners(Apply(s, SpawnFail(r)).pcs) == Spawners(s.pcs) - {r};
  }

  lemma SpawnersStay(s: Pool, a: Step)
    requires Enabled(s, a) && !Service(a) && !a.Decide? && !a.SpawnOk? && !a.SpawnFail?
    ensures Spawners(Apply(s, a).pcs) == Spawners(s.pcs)
  {
  }

  lemma LengthMoves(s: Pool, a: Step)
    requires Roster(s) && Pass(s) && Enabled(s, a)
    requires a.SpawnOk? || a.ReapEnd? || a.Drain?
    ensures var s' := Apply(s, a); |s'.instances| + s'.spawning <= |s.instances| + s.spawning
  {
    if a.ReapEnd? { PassEnds(s); }
  }

  lemma ClosingKept(s: Pool, a: Step)
    requires Roster(s) && Pass(s) && Closing(s) && Enabled(s, a)
    ensures Closing(Apply(s, a))
  {
    hide Apply, Enabled;
    FrameList(s, a);
    FrameOwners(s, a);
    if Relists(a) { ClosingMoves(s, a); }
  }

  lemma ClosingMoves(s: Pool, a: Step)
    requires Roster(s) && Pass(s) && Closing(s) && Enabled(s, a) && Relists(a)
    ensures Closing(Apply(s, a))
  {
    hide Apply, Enabled, Roster, Pass, Closing;
    match a
    case SpawnOk(r, x) => ClosingSpawn(s, r, x);
    case ReapEnd => ClosingReap(s);
    case ReapClose(x) => ClosingVictim(s, x);
    case Drain => ClosingDrain(s);
    case OrphanClose(x) => ClosingOrphan(s, x);
  }

  lemma ClosingSpawn(s: Pool, r: Request, x: Inst)
    requires Roster(s) && Closing(s) && Enabled(s, SpawnOk(r, x))
    ensures Closing(Apply(s, SpawnOk(r, x)))
  {
  }

  lemma ClosingReap(s: Pool)
    requires Roster(s) && Pass(s) && Closing(s) && Enabled(s, ReapEnd)
    ensures Closing(Apply(s, ReapEnd))
  {
    ReapEndChange(s);
    PassEnds(s);
    var gone := Elements(s.reaper.victims);
    assert forall x :: x in s.reaper.kept ==> x in Elements(s.reaper.kept);
    assert forall x :: x in Elements(s.instances) ==> x in s.instances;
    hide Apply, Enabled, Without, Only, Roster, Pass, Distinct, Elements;
    ClosingGrows(s, Apply(s, ReapEnd), gone);
  }

  lemma ClosingGrows(s: Pool, s': Pool, gone: set<Inst>)
    requires Closing(s) && s'.closes == s.closes && s'.orphans == s.orphans
    requires s'.doomed == s.doomed + gone && s'.reaped == s.reaped + gone
    requires forall x :: x in s'.instances || x in gone ==> x in s.instances
    ensures Closing(s')
  {
    assert forall x :: Closed(s', x) == Closed(s, x);
  }

  lemma ClosingVictim(s: Pool, x: Inst)
    requires Roster(s) && Closing(s) && Enabled(s, ReapClose(x))
    ensures Closing(Apply(s, ReapClose(x)))
  {
  }

  lemma ClosingDrain(s: Pool)
    requires Roster(s) && Closing(s) && Enabled(s, Drain)
    ensures Closing(Apply(s, Drain))
  {
  }

  lemma ClosingOrphan(s: Pool, x: Inst)
    requires Roster(s) && Closing(s) && Enabled(s, OrphanClose(x))
    ensures Closing(Apply(s, OrphanClose(x)))
  {
  }

  lemma StepKeepsInv(s: Pool, a: Step)
    requires Inv(s) && Enabled(s, a)
    ensures Inv(Apply(s, a))
  {
    hide Apply, Enabled, Mutex, Roster, Pass, Holders, Capacity, Closing;
    MutexKept(s, a);
    RosterKept(s, a);
    PassKept(s, a);
    HoldersKept(s, a);
    CapacityKept(s, a);
    ClosingKept(s, a);
  }

  lemma ReapedGrows(s: Pool)
    requires Enabled(s, ReapEnd)
    ensures s.reaped <= Apply(s, ReapEnd).reaped
  {
  }

  lemma NextKeepsInv(s: Pool, s': Pool)
    requires Inv(s) && Next(s, s')
    ensures Inv(s') && s.reaped <= s'.reaped
  {
    hide Apply, Inv;
    var a :| Enabled(s, a) && s' == Apply(s, a);
    FrameOwners(s, a);
    StepKeepsInv(s, a);
    if a.ReapEnd? { ReapedGrows(s); }
  }

  lemma {:induction false} RunKeepsInv(run: seq<Pool>, n: nat)
    requires IsRun(run) && n < |run|
    ensures Inv(run[n])
  {
    if n == 0 {
      InitHolds(run[0]);
    } else {
      RunKeepsInv(run, n - 1);
      NextKeepsInv(run[n - 1], run[n - 1 + 1]);
    }
  }

  // --- Main results ---

  /** In every reachable state of every pool the configured size bounds live
      plus starting instances, and no instance serves two requests. */
  lemma CapacityAndExclusion(run: seq<Pool>, n: nat)
    requires IsRun(run) && n < |run|
    ensures |run[n].instances| + |Spawners(run[n].pcs)| <= run[n].maxSize
    ensures forall q, r :: Holds(run[n], q) && Holds(run[n], r) && q != r ==>
              run[n].pcs[q].inst != run[n].pcs[r].inst
  {
    RunKeepsInv(run, n);
  }

  /** No mix of the reaper and closeAll closes an instance twice, and an
      instance is closed only once it is out of the pool's list. */
  lemma ClosedAtMostOnce(run: seq<Pool>, n: nat, x: Inst)
    requires IsRun(run) && n < |run|
    ensures Closed(run[n], x) <= 1
    ensures x in run[n].instances ==> Closed(run[n], x) == 0
  {
    RunKeepsInv(run, n);
  }

  /** The reaper never closes an instance in use: at the moment it closes x,
      the busy lock of x is the reaper's and no request holds x. */
  lemma ReaperSparesTheBusy(run: seq<Pool>, n: nat, x: Inst, r: Request)
    requires IsRun(run) && n < |run| && Enabled(run[n], ReapClose(x))
    ensures r in run[n].pcs && run[n].pcs[r].Holding? ==> run[n].pcs[r].inst != x
    ensures Closed(run[n], x) == 0 && x !in run[n].instances
  {
    RunKeepsInv(run, n);
  }

  /** Once reaped, never handed out again: in every later state the instance
      is outside the list and no request holds it. */
  lemma {:induction false} VictimsStayOut(run: seq<Pool>, m: nat, n: nat, x: Inst)
    requires IsRun(run) && m <= n < |run| && x in run[m].reaped
    ensures x in run[n].reaped && x !in run[n].instances
    ensures forall r :: r in run[n].pcs && run[n].pcs[r].Holding? ==> run[n].pcs[r].inst != x
    decreases n - m
  {
    hide Next;
    RunKeepsInv(run, n);
    if m < n {
      VictimsStayOut(run, m, n - 1, x);
      RunKeepsInv(run, n - 1);
      NextKeepsInv(run[n - 1], run[n - 1 + 1]);
    }
  }

  /** One whole reap pass partitions the list: survivors in their order, the
      rest handed to the reaper, nothing lost and nothing doubled. */
  lemma ReapPartitions(run: seq<Pool>, n: nat) returns (at: seq<nat>)
    requires IsRun(run) && n < |run| && Enabled(run[n], ReapEnd)
    ensures var s, s' := run[n], Apply(run[n], ReapEnd);
            && multiset(s.instances) == multiset(s'.instances) + multiset(s.reaper.victims)
            && Embeds(s'.instances, s.instances, at)
            && s'.doomed == s.doomed + Elements(s.reaper.victims)
            && Elements(s.reaper.victims) <= s.busy
  {
    RunKeepsInv(run, n);
    VictimsLocked(run, n);
    var s := run[n];
    PassEnds(s);
    Partition(s.instances, Elements(s.reaper.victims));
    at := KeepsOrder(s.instances, Elements(s.reaper.victims));
  }

  ghost predicate Caught(s: Pool) {
    s.reaper.Reaping? ==> Elements(s.reaper.victims) <= s.busy
  }

  lemma StepKeepsCaught(s: Pool, a: Step)
    requires Mutex(s) && Roster(s) && Pass(s) && Holders(s) && Caught(s) && Enabled(s, a)
    ensures Caught(Apply(s, a))
  {
    hide Apply, Enabled, Roster;
    FrameLocks(s, a);
    FrameServices(s, a);
    match a
    case Unlock(r) => CaughtUnlock(s, r);
    case ReapStart => CaughtStart(s);
    case ReapTry(expired) => CaughtTry(s, expired);
    case ReapEnd => ReapEndChange(s);
    case ReapClose(x) => CaughtClose(s, x);
    case TryInstance(r) => CaughtGet(s, a);
    case SpawnOk(r, x) => CaughtGet(s, a);
    case _ =>
  }

  lemma CaughtUnlock(s: Pool, r: Request)
    requires Holders(s) && Caught(s) && Enabled(s, Unlock(r))
    ensures Caught(Apply(s, Unlock(r)))
  {
    assert Holds(s, r);
  }

  lemma CaughtStart(s: Pool)
    requires Enabled(s, ReapStart)
    ensures Caught(Apply(s, ReapStart))
  {
  }

  lemma CaughtTry(s: Pool, expired: bool)
    requires Caught(s) && Enabled(s, ReapTry(expired))
    ensures Caught(Apply(s, ReapTry(expired)))
  {
  }

  lemma CaughtClose(s: Pool, x: Inst)
    requires Roster(s) && Pass(s) && Caught(s) && Enabled(s, ReapClose(x))
    ensures Caught(Apply(s, ReapClose(x)))
  {
    if s.reaper.Reaping? { PassInside(s); }
  }

  lemma CaughtGet(s: Pool, a: Step)
    requires Caught(s) && Enabled(s, a) && Gets(a)
    ensures Caught(Apply(s, a))
  {
  }

  lemma {:induction false} CaughtKept(s: Pool, s': Pool)
    requires Inv(s) && Caught(s) && Next(s, s')
    ensures Caught(s')
  {
    hide Apply, Caught;
    var a :| Enabled(s, a) && s' == Apply(s, a);
    StepKeepsCaught(s, a);
  }

  lemma PassInside(s: Pool)
    requires Pass(s) && s.reaper.Reaping?
    ensures Elements(s.reaper.victims) <= Elements(s.instances)
    ensures Elements(s.reaper.kept) <= Elements(s.instances)
  {
    Membership(s.instances[..s.reaper.next], Elements(s.reaper.victims));
  }

  lemma {:induction false} VictimsLocked(run: seq<Pool>, n: nat)
    requires IsRun(run) && n < |run|
    ensures Caught(run[n])
  {
    if n > 0 {
      VictimsLocked(run, n - 1);
      RunKeepsInv(run, n - 1);
      CaughtKept(run[n - 1], run[n - 1 + 1]);
    }
  }
}
