/** What the pool does not promise: concrete runs, and what holds instead. */
module PoolLimits {
  import opened Filtering
  import opened PoolModel
  import opened PoolSafety
  import opened PoolWakeup

  function NewPool(maxSize: nat): Pool {
    Pool(maxSize, true, false, [], 0, {}, Nobody, map[], Resting, Quiet, map[], Zero(), {}, {}, {}, map[], Zero(), [])
  }

  lemma Extend(run: seq<Pool>, a: Step) returns (longer: seq<Pool>)
    requires IsRun(run) && Enabled(run[|run| - 1], a)
    ensures IsRun(longer) && longer == run + [Apply(run[|run| - 1], a)]
  {
    hide Apply, Enabled;
    var s := run[|run| - 1];
    longer := run + [Apply(s, a)];
    assert Next(s, Apply(s, a));
    forall i | 0 <= i < |longer| - 1 ensures Next(longer[i], longer[i + 1]) {
      if i < |run| - 1 { assert Next(run[i], run[i + 1]); }
    }
  }

  /** One request has a slot for the first instance of a fresh pool of size one. */
  lemma FirstSpawn() returns (run: seq<Pool>)
    ensures IsRun(run)
    ensures run[|run| - 1] == NewPool(1).(spawning := 1, pcs := map[0 := Spawning])
  {
    run := [NewPool(1)];
    run := Extend(run, Arrive(0));
    run := Extend(run, Lock(0));
    run := Extend(run, Decide(0));
  }

  /** closeAll does not broadcast: after it a request can sleep although the
      pool has room and no wakeup is on its way. */
  lemma ClosingLosesWakeups() returns (run: seq<Pool>)
    ensures IsRun(run)
    ensures var s := run[|run| - 1]; s.drained && Sleeper(s) && !Full(s) && !SomeUnlocked(s)
  {
    run := FirstSpawn();
    run := Extend(run, SpawnOk(0, 7));
    run := Extend(run, Arrive(1));
    run := Extend(run, Lock(1));
    run := Extend(run, TryInstance(1));
    run := Extend(run, Decide(1));
    run := Extend(run, Detach);
    run := Extend(run, Drain);
    assert run[|run| - 1].pcs[1].Asleep?;
  }

  /** Draining keeps every sleeper justified if and only if nobody sleeps or there
      is nothing to drain. */
  lemma DrainIsJustifiedIff(s: Pool)
    requires Inv(s) && Live(s) && Enabled(s, Drain)
    ensures Justified(Apply(s, Drain)) <==> !Sleeper(s) || s.instances == []
  {
    var s' := Apply(s, Drain);
    assert s'.pcs == s.pcs && s'.instances == [] && s'.spawning == s.spawning && s'.busy == s.busy;
    assert Sleeper(s') <==> Sleeper(s);
    hide Inv, Apply, Enabled, ScanSound, BusyOwned, Progress;
  }

  /** So wakeups survive closing a pool, for good, exactly under that condition. */
  lemma WakeupsSurviveClosingIff(run: seq<Pool>, m: nat)
    requires IsRun(run) && m + 1 < |run| && Enabled(run[m], Drain) && run[m + 1] == Apply(run[m], Drain)
    ensures (forall n :: m < n < |run| ==> Justified(run[n])) <==> !Sleeper(run[m]) || run[m].instances == []
  {
    RunKeepsInv(run, m);
    RunKeepsLive(run, m);
    DrainIsJustifiedIff(run[m]);
    Drained(run[m]);
    hide Apply, Enabled, Inv, Live, Justified, Sleeper;
    if Justified(run[m + 1]) {
      forall n | m < n < |run| ensures Justified(run[n]) { StaysJustified(run, m + 1, n); }
    } else {
      assert !Justified(run[m + 1]);
    }
  }

  lemma Drained(s: Pool)
    requires Enabled(s, Drain)
    ensures Apply(s, Drain).drained
  {
  }

  lemma {:induction false} StaysJustified(run: seq<Pool>, m: nat, n: nat)
    requires IsRun(run) && m <= n < |run| && run[m].drained && Justified(run[m])
    ensures run[n].drained && Justified(run[n])
    decreases n - m
  {
    hide Next, Init, Apply, Inv, Live, Justified;
    if m < n {
      StaysJustified(run, m, n - 1);
      RunKeepsInv(run, n - 1);
      RunKeepsLive(run, n - 1);
      StepStaysJustified(run[n - 1], run[n - 1 + 1]);
    }
  }

  lemma StepStaysJustified(s: Pool, s': Pool)
    requires Inv(s) && Live(s) && Next(s, s') && s.drained && Justified(s)
    ensures s'.drained && Justified(s')
  {
    hide Apply, Inv, Justified, ScanSound, BusyOwned, Progress, SleepSound;
    var a :| Enabled(s, a) && s' == Apply(s, a);
    Frame(s, a);
    JustifiedKept(s, a);
  }

  /** A spawn in flight lands in the detached pool and comes to rest there. */
  lemma LateSpawnLandsDetached() returns (run: seq<Pool>)
    ensures IsRun(run)
    ensures var s := run[|run| - 1]; s.drained && s.instances == [7] && s.busy == {} && s.pcs == map[]
  {
    run := FirstSpawn();
    run := Extend(run, Detach);
    run := Extend(run, Drain);
    run := Extend(run, SpawnOk(0, 7));
    run := Extend(run, Unlock(0));
    run := Extend(run, Signal(0));
  }

  lemma LeakKept(s: Pool, s': Pool, x: Inst)
    requires Inv(s) && Next(s, s') && s.drained && x in s.instances
    ensures s'.drained && x in s'.instances
  {
  }

  /** Whatever is in the list of a drained pool stays there and is never closed. */
  lemma {:induction false} LateSpawnIsNeverClosed(run: seq<Pool>, m: nat, n: nat, x: Inst)
    requires IsRun(run) && m <= n < |run| && run[m].drained && x in run[m].instances
    ensures run[n].drained && x in run[n].instances && Closed(run[n], x) == 0
    decreases n - m
  {
    hide Next, Inv;
    if m < n {
      LateSpawnIsNeverClosed(run, m, n - 1, x);
      RunKeepsInv(run, n - 1);
      LeakKept(run[n - 1], run[n - 1 + 1], x);
    }
    ClosedAtMostOnce(run, n, x);
  }

  // --- Where every instance ends up ---

  /** Every instance ever spawned is listed, was reaped, waits to be closed by
      closeAll, or was closed. */
  ghost predicate AccountedFor(s: Pool) {
    forall x :: x in s.tally ==> x in s.instances || x in s.reaped || x in s.orphans || Closed(s, x) == 1
  }

  lemma AccountKept(s: Pool, a: Step)
    requires Inv(s) && AccountedFor(s) && Enabled(s, a)
    ensures AccountedFor(Apply(s, a))
  {
    hide Apply, Enabled, Mutex, Capacity, Roster, Pass, Holders, Closing;
    FrameList(s, a);
    FrameServices(s, a);
    FrameOwners(s, a);
    match a
    case SpawnOk(r, x) => AccountSpawn(s, r, x);
    case ReapEnd => AccountReap(s);
    case ReapClose(x) => AccountClose(s, a);
    case OrphanClose(x) => AccountClose(s, a);
    case Drain => AccountDrain(s);
    case _ => if Counts(a) { CountKeepsKeys(s, a); }
  }

  lemma AccountSpawn(s: Pool, r: Request, x: Inst)
    requires AccountedFor(s) && Enabled(s, SpawnOk(r, x))
    ensures AccountedFor(Apply(s, SpawnOk(r, x)))
  {
  }

  lemma AccountReap(s: Pool)
    requires Roster(s) && Pass(s) && AccountedFor(s) && Enabled(s, ReapEnd)
    ensures AccountedFor(Apply(s, ReapEnd))
  {
    ReapEndChange(s);
    PassEnds(s);
    var kept, gone := s.reaper.kept, Elements(s.reaper.victims);
    assert forall x :: x in s.instances ==> x in Elements(s.instances);
    assert forall x :: x in Elements(kept) ==> x in kept;
    hide Apply, Enabled, Roster, Pass, Without, Only, Distinct, Elements;
    assert forall x :: Closed(Apply(s, ReapEnd), x) == Closed(s, x);
  }

  lemma AccountClose(s: Pool, a: Step)
    requires Closing(s) && AccountedFor(s) && Enabled(s, a) && (a.ReapClose? || a.OrphanClose?)
    ensures AccountedFor(Apply(s, a))
  {
  }

  lemma AccountDrain(s: Pool)
    requires AccountedFor(s) && Enabled(s, Drain)
    ensures AccountedFor(Apply(s, Drain))
  {
  }

  lemma {:induction false} RunKeepsAccount(run: seq<Pool>, n: nat)
    requires IsRun(run) && n < |run|
    ensures AccountedFor(run[n])
  {
    if n > 0 {
      RunKeepsAccount(run, n - 1);
      RunKeepsInv(run, n - 1);
      hide Apply, Inv, AccountedFor;
      assert Next(run[n - 1], run[n - 1 + 1]);
      var a :| Enabled(run[n - 1], a) && run[n] == Apply(run[n - 1], a);
      AccountKept(run[n - 1], a);
    }
  }

  /** Somebody is going to close x, or can: the reaper or closeAll has taken it, or
      it is listed in a pool that closeAll has not emptied yet. */
  predicate Due(s: Pool, x: Inst) {
    x in s.doomed || x in s.orphans || (x in s.instances && !s.drained)
  }

  /** An instance is leaked, neither closed nor due, if and only if its pool has been
      drained and lists it. */
  lemma LeakedIff(run: seq<Pool>, n: nat, x: Inst)
    requires IsRun(run) && n < |run| && x in run[n].tally
    ensures Closed(run[n], x) == 0 && !Due(run[n], x) <==> run[n].drained && x in run[n].instances
  {
    RunKeepsInv(run, n);
    RunKeepsAccount(run, n);
  }

  /** That happens exactly to the spawns that finish after the pool was drained. */
  lemma SpawnLeaksIff(s: Pool, r: Request, x: Inst)
    requires Inv(s) && Enabled(s, SpawnOk(r, x))
    ensures var s' := Apply(s, SpawnOk(r, x)); Closed(s', x) == 0 && !Due(s', x) <==> s.drained
  {
  }

  // --- A report that drops an error ---

  /** Request 0 holds the only instance, whose counters are t. */
  predicate Busy(s: Pool, t: Tally, stage: Stage) {
    && s.registered && s.GatewayFree() && s.mu.Nobody? && s.instances == [7] && s.busy == {7}
    && s.pcs == map[0 := Holding(7, stage)] && s.tally == map[7 := t] && s.reports == []
    && s.lifetime.errors == 0 == s.lifetime.invokes
  }

  /** The instance is free, and its counters are t. */
  predicate Free(s: Pool, t: Tally) {
    && s.registered && s.GatewayFree() && s.mu.Nobody? && s.instances == [7] && s.busy == {}
    && s.pcs == map[] && s.tally == map[7 := t] && s.reports == []
    && s.lifetime.errors == 0 == s.lifetime.invokes
  }

  /** The instance is reaped, and its counters are the pool's. */
  predicate Gone(s: Pool, t: Tally) {
    && s.registered && s.GatewayFree() && s.mu.Nobody? && s.instances == [] && s.reports == []
    && s.lifetime.errors == t.errors && s.lifetime.invokes == t.invokes
  }

  lemma FailOnce(run0: seq<Pool>, t: Tally) returns (run: seq<Pool>, u: Tally)
    requires IsRun(run0) && Busy(run0[|run0| - 1], t, Calling)
    ensures IsRun(run) && Busy(run[|run| - 1], u, Settled)
    ensures u.errors == t.errors + 1 && u.invokes == t.invokes
    ensures run[|run| - 1].answered.errors == run0[|run0| - 1].answered.errors + 1
  {
    u := t.Plus(Tally(0, 1, 0));
    run := Extend(run0, CountError(0));
  }

  lemma LetGo(run0: seq<Pool>, t: Tally) returns (run: seq<Pool>)
    requires IsRun(run0) && Busy(run0[|run0| - 1], t, Settled)
    ensures IsRun(run) && Free(run[|run| - 1], t)
    ensures run[|run| - 1].answered == run0[|run0| - 1].answered
  {
    run := Extend(run0, Unlock(0));
    assert {7} - {7} == {};
    run := Extend(run, Signal(0));
    assert Broadcast(map[0 := Unlocked] - {0}) == map[];
  }

  lemma ReapIt(run0: seq<Pool>, t: Tally) returns (run: seq<Pool>)
    requires IsRun(run0) && Free(run0[|run0| - 1], t)
    ensures IsRun(run) && Gone(run[|run| - 1], t)
    ensures run[|run| - 1].answered == run0[|run0| - 1].answered
  {
    run := Extend(run0, ReapStart);
    run := Extend(run, ReapTry(true));
    run := Extend(run, ReapEnd);
  }

  /** Stats drops errors when nothing is warm and no invoke ever succeeded. */
  lemma ErrorsCanDisappear() returns (run: seq<Pool>)
    ensures IsRun(run)
    ensures var s := run[|run| - 1]; s.answered.errors == 1 && s.lifetime.errors == 1 && s.reports == [Zero()]
  {
    run := FirstSpawn();
    run := Extend(run, SpawnOk(0, 7));
    var t := Zero();
    assert Busy(run[|run| - 1], t, Calling) && run[|run| - 1].answered.errors == 0;
    run, t := FailOnce(run, t);
    hide Apply, Zero;
    run := LetGo(run, t);
    run := ReapIt(run, t);
    run := ReportIt(run, t);
  }

  lemma ReportIt(run0: seq<Pool>, t: Tally) returns (run: seq<Pool>)
    requires IsRun(run0) && Gone(run0[|run0| - 1], t) && t.invokes == 0
    ensures IsRun(run) && run[|run| - 1].reports == [Zero()]
    ensures run[|run| - 1].answered == run0[|run0| - 1].answered && run[|run| - 1].lifetime == run0[|run0| - 1].lifetime
  {
    run := Extend(run0, ReportStart);
    run := Extend(run, ReportEnd);
  }
}
