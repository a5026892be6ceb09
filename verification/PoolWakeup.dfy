/** No lost wakeup and no deadlock in the instance pool. */
module PoolWakeup {
  import opened Filtering
  import opened PoolModel
  import opened PoolSafety

  ghost predicate Sleeper(s: Pool) { exists r :: r in s.pcs && s.pcs[r].Asleep? }

  ghost predicate SomeUnlocked(s: Pool) { exists r :: r in s.pcs && s.pcs[r].Unlocked? }

  ghost predicate SomeActive(s: Pool) { exists r :: r in s.pcs && Active(s.pcs[r]) }

  ghost predicate Held(s: Pool, x: Inst) { exists r :: Holds(s, r) && s.pcs[r].inst == x }

  predicate Full(s: Pool) { |s.instances| + s.spawning == s.maxSize }

  /** What a scan has passed over was busy, and stays busy unless its release
      has yet to broadcast: nobody can lock or broadcast under the scan. */
  ghost predicate ScanSound(s: Pool) {
    forall r :: r in s.pcs && s.pcs[r].Scanning? ==>
      && s.pcs[r].next <= |s.instances|
      && (SomeUnlocked(s) || Elements(s.instances[..s.pcs[r].next]) <= s.busy)
  }

  /** The sleeper's justification: a wakeup is on its way, or nothing is free. */
  ghost predicate Justified(s: Pool) {
    Sleeper(s) ==> Full(s) && (SomeUnlocked(s) || Elements(s.instances) <= s.busy)
  }

  ghost predicate SleepSound(s: Pool) { !s.drained ==> Justified(s) }

  /** A locked instance of the list is held by a request or is a fresh victim. */
  ghost predicate BusyOwned(s: Pool) {
    forall x :: x in s.instances && x in s.busy ==>
      Held(s, x) || (s.reaper.Reaping? && x in s.reaper.victims)
  }

  ghost predicate Progress(s: Pool) { Sleeper(s) ==> SomeActive(s) }

  ghost predicate Live(s: Pool) { ScanSound(s) && SleepSound(s) && BusyOwned(s) && Progress(s) }

  // --- Preservation ---

  lemma ScanKept(s: Pool, a: Step)
    requires Mutex(s) && Roster(s) && ScanSound(s) && Enabled(s, a)
    ensures ScanSound(Apply(s, a))
  {
    hide Apply, Enabled, ScanSound;
    if a.Arrive? || a.Lock? || a.Decide? { ScanMoves(s, a); }
    else if a.Unlock? { ScanUnlocks(s, a.r); }
    else if a.TryInstance? { ScanTries(s, a.r); }
    else if a.SpawnOk? || a.SpawnFail? || a.Signal? { ScanBlocked(s, a); }
    else if Counts(a) { ScanCounts(s, a); }
    else { ScanServices(s, a); }
  }

  lemma ScanMoves(s: Pool, a: Step)
    requires ScanSound(s) && Enabled(s, a) && (a.Arrive? || a.Lock? || a.Decide?)
    ensures ScanSound(Apply(s, a))
  {
    var s' := Apply(s, a);
    assert s'.instances == s.instances && s'.busy == s.busy;
    assert s'.pcs == s.pcs[a.r := s'.pcs[a.r]] && !s'.pcs[a.r].Unlocked?;
    assert s'.pcs[a.r].Scanning? ==> s'.pcs[a.r].next == 0;
    assert a.r in s.pcs ==> !s.pcs[a.r].Unlocked?;
    hide Apply, Enabled;
    if SomeUnlocked(s) {
      var q :| q in s.pcs && s.pcs[q].Unlocked?;
      assert q in s'.pcs && s'.pcs[q].Unlocked?;
    }
  }

  lemma ScanUnlocks(s: Pool, r: Request)
    requires ScanSound(s) && Enabled(s, Unlock(r))
    ensures ScanSound(Apply(s, Unlock(r)))
  {
    assert Apply(s, Unlock(r)).pcs[r].Unlocked?;
  }

  lemma ScanTries(s: Pool, r: Request)
    requires Mutex(s) && ScanSound(s) && Enabled(s, TryInstance(r))
    ensures ScanSound(Apply(s, TryInstance(r)))
  {
    var s', i := Apply(s, TryInstance(r)), s.pcs[r].next;
    assert forall q :: q in s.pcs && s.pcs[q].Unlocked? ==> q in s'.pcs && s'.pcs[q].Unlocked?;
    assert s.mu == ByRequest(r);
    assert s.instances[..i + 1] == s.instances[..i] + [s.instances[i]];
  }

  /** While a request scans, the mutex keeps every other list change away. */
  lemma ScanBlocked(s: Pool, a: Step)
    requires Mutex(s) && ScanSound(s) && Enabled(s, a)
    requires a.SpawnOk? || a.SpawnFail? || a.Signal?
    ensures ScanSound(Apply(s, a))
  {
    assert forall r :: r in s.pcs ==> !s.pcs[r].Scanning?;
  }

  lemma ScanCounts(s: Pool, a: Step)
    requires ScanSound(s) && Enabled(s, a) && Counts(a)
    ensures ScanSound(Apply(s, a))
  {
    var s' := Apply(s, a);
    assert forall r :: r in s.pcs && s.pcs[r].Unlocked? ==> r in s'.pcs && s'.pcs[r].Unlocked?;
  }

  lemma ScanServices(s: Pool, a: Step)
    requires Mutex(s) && Roster(s) && ScanSound(s) && Enabled(s, a)
    requires Service(a) || a.ReapEnd?
    ensures ScanSound(Apply(s, a))
  {
    var s' := Apply(s, a);
    if a.ReapEnd? || a.Drain? {
      assert forall r :: r in s.pcs ==> !s.pcs[r].Scanning?;
    } else {
      assert SomeUnlocked(s) ==> SomeUnlocked(s');
    }
  }

  /** Steps after which every former sleeper is queued for the mutex again. */
  predicate Wakes(s: Pool, a: Step) {
    a.SpawnFail? || a.Signal? || (a.ReapEnd? && s.reaper.Reaping? && |s.reaper.kept| != |s.instances|)
  }

  lemma WakesAll(s: Pool, a: Step)
    requires Enabled(s, a) && Wakes(s, a)
    ensures !Sleeper(Apply(s, a))
  {
  }

  lemma SleepKept(s: Pool, a: Step)
    requires Inv(s) && ScanSound(s) && SleepSound(s) && Enabled(s, a)
    ensures SleepSound(Apply(s, a))
  {
    hide Apply, Enabled, Inv, Justified;
    Frame(s, a);
    if !s.drained && !a.Drain? { JustifiedKept(s, a); }
  }

  lemma JustifiedKept(s: Pool, a: Step)
    requires Inv(s) && ScanSound(s) && Justified(s) && Enabled(s, a) && !a.Drain?
    ensures Justified(Apply(s, a))
  {
    hide Apply, Enabled;
    if Wakes(s, a) { WakesAll(s, a); }
    else if a.Decide? { SleepDecides(s, a.r); }
    else if a.Arrive? || a.Lock? || a.TryInstance? || a.SpawnOk? { SleepMoves(s, a); }
    else if a.Unlock? { SleepUnlocks(s, a.r); }
    else if Counts(a) { SleepCounts(s, a); }
    else if a.ReapEnd? { SleepReaped(s); }
    else { SleepServices(s, a); }
  }

  lemma SleepDecides(s: Pool, r: Request)
    requires Inv(s) && ScanSound(s) && Justified(s) && Enabled(s, Decide(r))
    ensures Justified(Apply(s, Decide(r)))
  {
    var s' := Apply(s, Decide(r));
    assert forall q :: q in s.pcs && s.pcs[q].Unlocked? ==> q in s'.pcs && s'.pcs[q].Unlocked?;
    assert s.instances[..s.pcs[r].next] == s.instances;
    if s'.pcs[r].Spawning? {
      assert Sleeper(s') ==> Sleeper(s);
    }
  }

  lemma SleepMoves(s: Pool, a: Step)
    requires Justified(s) && Enabled(s, a) && (a.Arrive? || a.Lock? || a.TryInstance? || a.SpawnOk?)
    ensures Justified(Apply(s, a))
  {
    var s' := Apply(s, a);
    assert Sleeper(s') ==> Sleeper(s);
    assert forall q :: q in s.pcs && s.pcs[q].Unlocked? ==> q in s'.pcs && s'.pcs[q].Unlocked?;
  }

  lemma SleepUnlocks(s: Pool, r: Request)
    requires Justified(s) && Enabled(s, Unlock(r))
    ensures Justified(Apply(s, Unlock(r)))
  {
    var s' := Apply(s, Unlock(r));
    assert Sleeper(s') ==> Sleeper(s);
    assert s'.pcs[r].Unlocked?;
  }

  lemma SleepCounts(s: Pool, a: Step)
    requires Justified(s) && Enabled(s, a) && Counts(a)
    ensures Justified(Apply(s, a))
  {
    var s' := Apply(s, a);
    assert Sleeper(s') ==> Sleeper(s);
    assert forall q :: q in s.pcs && s.pcs[q].Unlocked? ==> q in s'.pcs && s'.pcs[q].Unlocked?;
  }

  lemma SleepServices(s: Pool, a: Step)
    requires Roster(s) && Justified(s) && Enabled(s, a) && Service(a) && !a.Drain?
    ensures Justified(Apply(s, a))
  {
    FrameLocks(s, a);
    FrameList(s, a);
    FrameSize(s, a);
    if a.ReapTry? || a.ReapClose? {
      SleepReaping(s, a);
    } else {
      hide Apply, Enabled, Roster;
      assert Sleeper(Apply(s, a)) <==> Sleeper(s);
    }
  }

  lemma SleepReaping(s: Pool, a: Step)
    requires Roster(s) && Justified(s) && Enabled(s, a) && (a.ReapTry? || a.ReapClose?)
    ensures Justified(Apply(s, a))
  {
    assert Apply(s, a).pcs == s.pcs;
  }

  lemma SleepReaped(s: Pool)
    requires Roster(s) && Pass(s) && Justified(s) && Enabled(s, ReapEnd) && !Wakes(s, ReapEnd)
    ensures Justified(Apply(s, ReapEnd))
  {
    var s' := Apply(s, ReapEnd);
    assert s'.pcs == s.pcs && s'.busy == s.busy && s'.spawning == s.spawning && s'.maxSize == s.maxSize;
    ReapEndChange(s);
    PassEnds(s);
    hide Apply, Enabled, Roster, Pass, Without, Only, Wakes;
    assert s'.instances == s.instances && (Sleeper(s') <==> Sleeper(s));
  }

  lemma OwnedKept(s: Pool, a: Step)
    requires Inv(s) && BusyOwned(s) && Enabled(s, a)
    ensures BusyOwned(Apply(s, a))
  {
    hide Apply, Enabled;
    if a.TryInstance? || a.SpawnOk? { OwnedTake(s, a); }
    else if a.ReapEnd? { OwnedReapEnds(s); }
    else if Service(a) { OwnedServices(s, a); }
    else if Counts(a) { OwnedCounts(s, a); }
    else if a.Arrive? || a.Lock? || a.Decide? { OwnedSeeks(s, a); }
    else { OwnedLeaves(s, a); }
  }

  lemma OwnedTake(s: Pool, a: Step)
    requires Mutex(s) && BusyOwned(s) && Enabled(s, a) && (a.TryInstance? || a.SpawnOk?)
    ensures BusyOwned(Apply(s, a))
  {
    var s' := Apply(s, a);
    forall x | x in s'.instances && x in s'.busy
      ensures Held(s', x) || (s'.reaper.Reaping? && x in s'.reaper.victims)
    {
      if Holds(s', a.r) && s'.pcs[a.r].inst == x {
      } else if Held(s, x) {
        var q :| Holds(s, q) && s.pcs[q].inst == x;
        assert Holds(s', q);
      }
    }
  }

  lemma OwnedSeeks(s: Pool, a: Step)
    requires BusyOwned(s) && Enabled(s, a) && (a.Arrive? || a.Lock? || a.Decide?)
    ensures BusyOwned(Apply(s, a))
  {
    var s' := Apply(s, a);
    forall x | Held(s, x) ensures Held(s', x) {
      var q :| Holds(s, q) && s.pcs[q].inst == x;
      assert Holds(s', q) && s'.pcs[q] == s.pcs[q];
    }
  }

  lemma OwnedCounts(s: Pool, a: Step)
    requires BusyOwned(s) && Enabled(s, a) && Counts(a)
    ensures BusyOwned(Apply(s, a))
  {
    var s' := Apply(s, a);
    forall x | Held(s, x) ensures Held(s', x) {
      var q :| Holds(s, q) && s.pcs[q].inst == x;
      assert Holds(s', q) && s'.pcs[q].inst == x;
    }
  }

  lemma OwnedLeaves(s: Pool, a: Step)
    requires Holders(s) && BusyOwned(s) && Enabled(s, a) && (a.SpawnFail? || a.Unlock? || a.Signal?)
    ensures BusyOwned(Apply(s, a))
  {
    var s' := Apply(s, a);
    forall x | x in s'.busy && Held(s, x) ensures Held(s', x) {
      var q :| Holds(s, q) && s.pcs[q].inst == x;
      assert Holds(s', q) && s'.pcs[q] == s.pcs[q];
    }
  }

  lemma StillHeld(s: Pool, s': Pool, x: Inst)
    requires Held(s, x) && s'.pcs == s.pcs
    ensures Held(s', x)
  {
    var q :| Holds(s, q) && s.pcs[q].inst == x;
    assert Holds(s', q);
  }

  lemma OwnedServices(s: Pool, a: Step)
    requires BusyOwned(s) && Mutex(s) && Enabled(s, a) && Service(a)
    ensures BusyOwned(Apply(s, a))
  {
    var s' := Apply(s, a);
    forall x | x in s'.instances && x in s'.busy && Held(s, x)
      ensures Held(s', x)
    {
      StillHeld(s, s', x);
    }
    if a.ReapTry? {
      assert forall x :: x in s.reaper.victims ==> x in s'.reaper.victims;
      assert s'.busy != s.busy ==> s'.reaper.victims[|s.reaper.victims|] == s.instances[s.reaper.next];
    }
  }

  lemma OwnedReapEnds(s: Pool)
    requires Roster(s) && Pass(s) && BusyOwned(s) && Enabled(s, ReapEnd)
    ensures BusyOwned(Apply(s, ReapEnd))
  {
    var s' := Apply(s, ReapEnd);
    PassEnds(s);
    hide Roster, Pass, Broadcast;
    forall x | x in s'.instances && x in s'.busy
      ensures Held(s', x)
    {
      assert x in Elements(s.reaper.kept) && x in Elements(s.instances) && x !in Elements(s.reaper.victims);
      assert Held(s, x);
      var q :| Holds(s, q) && s.pcs[q].inst == x;
      BroadcastKeeps(s.pcs, q);
    }
  }

  lemma BroadcastKeeps(pcs: map<Request, Pc>, q: Request)
    requires q in pcs && !pcs[q].Asleep?
    ensures q in Broadcast(pcs) && Broadcast(pcs)[q] == pcs[q]
  {
  }

  lemma ProgressKept(s: Pool, a: Step)
    requires Inv(s) && Live(s) && Enabled(s, a)
    ensures Progress(Apply(s, a))
  {
    hide Apply, Enabled, ScanSound, SleepSound, BusyOwned;
    if Wakes(s, a) { WakesAll(s, a); }
    else if a.Decide? { ProgressDecides(s, a.r); }
    else { ProgressMoves(s, a); }
  }

  /** A request falls asleep only while somebody else still has to act. */
  lemma ProgressDecides(s: Pool, r: Request)
    requires Inv(s) && Live(s) && Enabled(s, Decide(r))
    ensures Progress(Apply(s, Decide(r)))
  {
    if |s.instances| + s.spawning < s.maxSize {
      assert Active(Apply(s, Decide(r)).pcs[r]);
    } else {
      var q := SomebodyElse(s, r);
      assert Active(Apply(s, Decide(r)).pcs[q]);
    }
  }

  lemma SomebodyElse(s: Pool, r: Request) returns (q: Request)
    requires Inv(s) && Live(s) && Enabled(s, Decide(r)) && |s.instances| + s.spawning >= s.maxSize
    ensures q in s.pcs && q != r && Active(s.pcs[q])
  {
    hide Apply, Pass, Holders, Closing, SleepSound, Progress;
    assert s.instances[..s.pcs[r].next] == s.instances;
    if SomeUnlocked(s) {
      q :| q in s.pcs && s.pcs[q].Unlocked?;
    } else if s.spawning > 0 {
      assert Spawners(s.pcs) != {};
      q :| q in Spawners(s.pcs);
    } else {
      assert s.instances[0] in s.instances && s.mu == ByRequest(r);
      assert Held(s, s.instances[0]);
      q :| Holds(s, q) && s.pcs[q].inst == s.instances[0];
    }
  }

  lemma ProgressMoves(s: Pool, a: Step)
    requires Progress(s) && Enabled(s, a) && !a.Decide? && !Wakes(s, a)
    ensures Progress(Apply(s, a))
  {
    var s' := Apply(s, a);
    PcsMove(s, a);
    hide Apply, Enabled;
    if Sleeper(s') {
      var r :| r in s'.pcs && s'.pcs[r].Asleep?;
      assert r in s.pcs && s.pcs[r].Asleep?;
      var q :| q in s.pcs && Active(s.pcs[q]);
      assert q in s'.pcs && Active(s'.pcs[q]);
    }
  }

  /** A step that wakes nobody moves at most its own request, does not put it to
      sleep and keeps it active if it was. */
  lemma {:induction false} PcsMove(s: Pool, a: Step)
    requires Enabled(s, a) && !a.Decide? && !Wakes(s, a)
    ensures var s' := Apply(s, a);
      || s'.pcs == s.pcs
      || ((Seeks(a) || Leaves(a)) && a.r in s'.pcs && s'.pcs == s.pcs[a.r := s'.pcs[a.r]]
          && !s'.pcs[a.r].Asleep? && (a.r in s.pcs && Active(s.pcs[a.r]) ==> Active(s'.pcs[a.r])))
  {
    if Seeks(a) { PcsSeek(s, a); }
    else if Leaves(a) { PcsLeave(s, a); }
    else { hide Enabled; }
  }

  lemma PcsSeek(s: Pool, a: Step)
    requires Enabled(s, a) && Seeks(a) && !a.Decide?
    ensures var s' := Apply(s, a);
      && a.r in s'.pcs && s'.pcs == s.pcs[a.r := s'.pcs[a.r]]
      && !s'.pcs[a.r].Asleep? && (a.r in s.pcs && Active(s.pcs[a.r]) ==> Active(s'.pcs[a.r]))
  {
  }

  lemma PcsLeave(s: Pool, a: Step)
    requires Enabled(s, a) && Leaves(a) && !Wakes(s, a)
    ensures var s' := Apply(s, a);
      && a.r in s'.pcs && s'.pcs == s.pcs[a.r := s'.pcs[a.r]]
      && !s'.pcs[a.r].Asleep? && Active(s'.pcs[a.r])
  {
  }

  lemma StepKeepsLive(s: Pool, a: Step)
    requires Inv(s) && Live(s) && Enabled(s, a)
    ensures Live(Apply(s, a))
  {
    hide Apply, Enabled, Inv, ScanSound, SleepSound, BusyOwned, Progress;
    assert Mutex(s) && Roster(s) by { InvParts(s); }
    ScanKept(s, a);
    SleepKept(s, a);
    OwnedKept(s, a);
    ProgressKept(s, a);
  }

  lemma InvParts(s: Pool)
    requires Inv(s)
    ensures Mutex(s) && Roster(s)
  {
  }

  lemma NextKeepsLive(s: Pool, s': Pool)
    requires Inv(s) && Live(s) && Next(s, s')
    ensures Live(s')
  {
    hide Apply, Inv, Live;
    var a :| Enabled(s, a) && s' == Apply(s, a);
    StepKeepsLive(s, a);
  }

  lemma {:induction false} RunKeepsLive(run: seq<Pool>, n: nat)
    requires IsRun(run) && n < |run|
    ensures Live(run[n])
  {
    hide Next;
    if n > 0 {
      RunKeepsInv(run, n - 1);
      RunKeepsLive(run, n - 1);
      NextKeepsLive(run[n - 1], run[n - 1 + 1]);
    }
  }

  // --- Main results ---

  /** No lost wakeup: in a pool not yet closed, a request sleeps only if the
      pool is full and every instance is busy, or some releaser is between
      busy.Unlock and Broadcast. */
  lemma NoLostWakeup(run: seq<Pool>, n: nat, r: Request)
    requires IsRun(run) && n < |run| && !run[n].drained
    requires r in run[n].pcs && run[n].pcs[r].Asleep?
    ensures Full(run[n])
    ensures SomeUnlocked(run[n]) || forall x :: x in run[n].instances ==> x in run[n].busy
  {
    RunKeepsLive(run, n);
    assert Sleeper(run[n]);
  }

  /** In any pool, closed ones included, a sleeper is never alone: some
      request still holds an instance, spawns one, or is about to broadcast. */
  lemma SleepersAreNotAlone(run: seq<Pool>, n: nat, r: Request)
    requires IsRun(run) && n < |run|
    requires r in run[n].pcs && run[n].pcs[r].Asleep?
    ensures exists q :: q in run[n].pcs && Active(run[n].pcs[q])
  {
    RunKeepsLive(run, n);
    assert Sleeper(run[n]);
  }

  ghost predicate Path(path: seq<Pool>, start: Pool) {
    && |path| > 0 && path[0] == start
    && forall i :: 0 <= i < |path| - 1 ==> Next(path[i], path[i + 1])
  }

  lemma Prepend(s: Pool, a: Step, rest: seq<Pool>) returns (path: seq<Pool>)
    requires Enabled(s, a) && Path(rest, Apply(s, a))
    ensures Path(path, s) && path[|path| - 1] == rest[|rest| - 1]
  {
    hide Apply, Enabled;
    path := [s] + rest;
    assert Next(s, rest[0]);
    forall i | 0 <= i < |path| - 1 ensures Next(path[i], path[i + 1]) {
      if i > 0 { assert path[i] == rest[i - 1] && path[i + 1] == rest[i - 1 + 1]; }
    }
  }

  lemma {:induction false} NewInstance(used: set<Inst>) returns (x: Inst)
    ensures x !in used && forall y: Inst :: y in used ==> y < x
  {
    x := 0;
    if used != {} {
      var y :| y in used;
      x := NewInstance(used - {y});
      if x <= y { x := y + 1; }
      forall z: Inst | z in used ensures z < x {
        if z != y { assert z in used - {y}; }
      }
    }
  }

  /** With the mutex free, one active request alone can wake everybody. */
  lemma {:induction false} ActiveWakes(s: Pool, r: Request) returns (path: seq<Pool>)
    requires s.mu.Nobody? && r in s.pcs && Active(s.pcs[r])
    ensures Path(path, s) && !Sleeper(path[|path| - 1])
    decreases
      if s.pcs[r].Spawning? then 3 else if !s.pcs[r].Holding? then 0 else if s.pcs[r].stage.Counted? then 2 else 1
  {
    var x := NewInstance(s.tally.Keys);
    var a := match s.pcs[r]
      case Holding(_, stage) => if stage.Counted? then CountNanos(r, 0) else Unlock(r)
      case Spawning => SpawnOk(r, x)
      case _ => Signal(r);
    var rest := [Apply(s, a)];
    if s.pcs[r].Unlocked? { WakesAll(s, a); } else { rest := ActiveWakes(Apply(s, a), r); }
    path := Prepend(s, a, rest);
  }

  /** The owner of the mutex can always take its next step. */
  function OwnerStep(s: Pool): Step
    requires !s.mu.Nobody?
  {
    match s.mu
    case ByRequest(r) =>
      if r in s.pcs && s.pcs[r].Scanning? && s.pcs[r].next < |s.instances| then TryInstance(r) else Decide(r)
    case ByReaper =>
      if s.reaper.Reaping? && s.reaper.next < |s.instances| then ReapTry(false) else ReapEnd
  }

  function OwnerWork(s: Pool): int {
    match s.mu
    case ByRequest(r) => if r in s.pcs && s.pcs[r].Scanning? then |s.instances| - s.pcs[r].next + 1 else 0
    case ByReaper => if s.reaper.Reaping? then |s.instances| - s.reaper.next + 1 else 0
    case Nobody => 0
  }

  lemma OwnerMoves(s: Pool)
    requires Mutex(s) && Pass(s) && ScanSound(s) && !s.mu.Nobody?
    ensures Enabled(s, OwnerStep(s))
    ensures var s' := Apply(s, OwnerStep(s)); s'.mu.Nobody? || 0 <= OwnerWork(s') < OwnerWork(s)
  {
  }

  lemma {:induction false} WakeupPath(s: Pool) returns (path: seq<Pool>)
    requires Inv(s) && Live(s)
    ensures Path(path, s) && !Sleeper(path[|path| - 1])
    decreases !s.mu.Nobody?, OwnerWork(s)
  {
    hide Apply, Enabled, ScanSound, SleepSound, BusyOwned, Mutex, Roster, Pass, Holders, Capacity, Closing;
    if !Sleeper(s) {
      path := [s];
    } else if s.mu.Nobody? {
      var q :| q in s.pcs && Active(s.pcs[q]);
      path := ActiveWakes(s, q);
    } else {
      var a := OwnerStep(s);
      OwnerMoves(s);
      StepKeepsInv(s, a);
      StepKeepsLive(s, a);
      var rest := WakeupPath(Apply(s, a));
      path := Prepend(s, a, rest);
    }
  }

  /** No deadlock: from every reachable state there is a continuation, without
      any new request arriving, after which nobody sleeps. */
  lemma SleepersCanAlwaysWake(run: seq<Pool>, n: nat) returns (path: seq<Pool>)
    requires IsRun(run) && n < |run|
    ensures Path(path, run[n]) && !Sleeper(path[|path| - 1])
  {
    RunKeepsInv(run, n);
    RunKeepsLive(run, n);
    path := WakeupPath(run[n]);
  }
}
