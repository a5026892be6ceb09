/** Left to themselves the requests of a pool finish, whatever order they move in. */
module PoolProgress {
  import opened PoolModel
  import opened PoolSafety
  import opened PoolWakeup
  import B = BucketSums

  /** A step of a request that is already there. */
  predicate OwnStep(a: Step) { (Seeks(a) && !a.Arrive?) || Leaves(a) }

  /** How much a request has still to do if nobody wakes it again. */
  function Weight(maxSize: nat, pc: Pc): nat {
    match pc
    case WantLock => maxSize + 7
    case Scanning(next) => if next <= maxSize then maxSize - next + 6 else 6
    case Asleep => 0
    case Spawning => 5
    case Holding(_, stage) => if stage.Calling? then 4 else if stage.Counted? then 3 else 2
    case Unlocked => 1
  }

  function Weights(maxSize: nat, pcs: map<Request, Pc>): map<Request, int> {
    map r | r in pcs :: Weight(maxSize, pcs[r]) as int
  }

  ghost function Total(maxSize: nat, pcs: map<Request, Pc>): int { B.Sum(Weights(maxSize, pcs), pcs.Keys) }

  /** What one broadcast to n sleepers can cost. */
  function Rousing(n: nat, maxSize: nat): nat { n * (maxSize + 7) }

  /** What all broadcasts can cost if each of n requests wakes all the others once. */
  function Wakeups(n: nat, maxSize: nat): nat { n * Rousing(n, maxSize) }

  /** Everybody's work, woken by everybody else. */
  ghost function Work(s: Pool): int { Total(s.maxSize, s.pcs) + Wakeups(|s.pcs|, s.maxSize) }

  lemma TotalSet(maxSize: nat, pcs: map<Request, Pc>, r: Request, pc: Pc)
    requires r in pcs
    ensures Total(maxSize, pcs[r := pc]) == Total(maxSize, pcs) - Weight(maxSize, pcs[r]) + Weight(maxSize, pc)
  {
    var ws, ws' := Weights(maxSize, pcs), Weights(maxSize, pcs[r := pc]);
    assert pcs[r := pc].Keys == pcs.Keys;
    B.SumPick(ws, pcs.Keys, r);
    B.SumPick(ws', pcs.Keys, r);
    B.SumSame(ws, ws', pcs.Keys - {r});
  }

  lemma TotalRemove(maxSize: nat, pcs: map<Request, Pc>, r: Request)
    requires r in pcs
    ensures Total(maxSize, pcs - {r}) == Total(maxSize, pcs) - Weight(maxSize, pcs[r])
    ensures |pcs - {r}| == |pcs| - 1
  {
    var ws, ws' := Weights(maxSize, pcs), Weights(maxSize, pcs - {r});
    assert (pcs - {r}).Keys == pcs.Keys - {r};
    B.SumPick(ws, pcs.Keys, r);
    B.SumSame(ws, ws', pcs.Keys - {r});
  }

  lemma RousingOneMore(n: nat, maxSize: nat)
    ensures Rousing(n + 1, maxSize) == Rousing(n, maxSize) + maxSize + 7
  {
  }

  lemma {:induction false} SumGrows(ws: map<Request, int>, ws': map<Request, int>, ks: set<Request>, maxSize: nat)
    requires ks <= ws.Keys && ks <= ws'.Keys && forall r :: r in ks ==> ws'[r] <= ws[r] + maxSize + 7
    ensures B.Sum(ws', ks) <= B.Sum(ws, ks) + Rousing(|ks|, maxSize)
    decreases ks
  {
    hide Rousing;
    if ks == {} {
      assert B.Sum(ws, ks) == 0 == B.Sum(ws', ks);
    } else {
      var r :| r in ks;
      B.SumPick(ws, ks, r);
      B.SumPick(ws', ks, r);
      hide B.Sum;
      SumGrows(ws, ws', ks - {r}, maxSize);
      assert |ks| == |ks - {r}| + 1;
      RousingOneMore(|ks - {r}|, maxSize);
    }
  }

  lemma TotalBroadcast(maxSize: nat, pcs: map<Request, Pc>)
    ensures Broadcast(pcs).Keys == pcs.Keys
    ensures Total(maxSize, Broadcast(pcs)) <= Total(maxSize, pcs) + Rousing(|pcs|, maxSize)
  {
    assert Broadcast(pcs).Keys == pcs.Keys && |pcs| == |pcs.Keys|;
    hide Rousing;
    SumGrows(Weights(maxSize, pcs), Weights(maxSize, Broadcast(pcs)), pcs.Keys, maxSize);
  }

  lemma {:induction false} TotalIsNatural(ws: map<Request, int>, ks: set<Request>)
    requires ks <= ws.Keys && forall r :: r in ks ==> ws[r] >= 0
    ensures B.Sum(ws, ks) >= 0
  {
    B.SumNonNegative(ws, ks);
  }

  // --- Every step of a request uses up some of the work ---

  /** The request takes a step nearer to its end, or it leaves and wakes the others. */
  lemma Moves(s: Pool, a: Step)
    requires Inv(s) && ScanSound(s) && Enabled(s, a) && OwnStep(a)
    ensures var s' := Apply(s, a);
      && s'.maxSize == s.maxSize && a.r in s.pcs
      && (|| s'.pcs == Broadcast(s.pcs - {a.r})
          || (a.r in s'.pcs && s'.pcs == s.pcs[a.r := s'.pcs[a.r]] &&
              Weight(s.maxSize, s'.pcs[a.r]) < Weight(s.maxSize, s.pcs[a.r])))
  {
    hide Inv, ScanSound, Apply;
    match a
    case Lock(r) => MovesLock(s, r);
    case TryInstance(r) => MovesTry(s, r);
    case Decide(r) => MovesDecide(s, r);
    case SpawnOk(r, x) => MovesSpawn(s, r, x);
    case _ => MovesLeave(s, a);
  }

  lemma MovesLock(s: Pool, r: Request)
    requires Enabled(s, Lock(r))
    ensures var s' := Apply(s, Lock(r));
      s'.maxSize == s.maxSize && s'.pcs == s.pcs[r := Scanning(0)] &&
          Weight(s.maxSize, Scanning(0)) < Weight(s.maxSize, s.pcs[r])
  {
  }

  lemma MovesTry(s: Pool, r: Request)
    requires Inv(s) && Enabled(s, TryInstance(r))
    ensures var s' := Apply(s, TryInstance(r));
      && s'.maxSize == s.maxSize && r in s'.pcs && s'.pcs == s.pcs[r := s'.pcs[r]]
      && Weight(s.maxSize, s'.pcs[r]) < Weight(s.maxSize, s.pcs[r])
  {
    assert s.spawning >= 0;
    hide Inv;
  }

  lemma MovesDecide(s: Pool, r: Request)
    requires Enabled(s, Decide(r))
    ensures var s' := Apply(s, Decide(r));
      && s'.maxSize == s.maxSize && r in s'.pcs && s'.pcs == s.pcs[r := s'.pcs[r]]
      && Weight(s.maxSize, s'.pcs[r]) < Weight(s.maxSize, s.pcs[r])
  {
  }

  lemma MovesSpawn(s: Pool, r: Request, x: Inst)
    requires Enabled(s, SpawnOk(r, x))
    ensures var s' := Apply(s, SpawnOk(r, x));
      && s'.maxSize == s.maxSize && r in s'.pcs && s'.pcs == s.pcs[r := s'.pcs[r]]
      && Weight(s.maxSize, s'.pcs[r]) < Weight(s.maxSize, s.pcs[r])
  {
  }

  lemma MovesLeave(s: Pool, a: Step)
    requires Enabled(s, a) && Leaves(a)
    ensures var s' := Apply(s, a);
      && s'.maxSize == s.maxSize && a.r in s.pcs
      && (|| s'.pcs == Broadcast(s.pcs - {a.r})
          || (a.r in s'.pcs && s'.pcs == s.pcs[a.r := s'.pcs[a.r]] &&
              Weight(s.maxSize, s'.pcs[a.r]) < Weight(s.maxSize, s.pcs[a.r])))
  {
  }

  lemma StepBurns(s: Pool, a: Step)
    requires Inv(s) && ScanSound(s) && Enabled(s, a) && OwnStep(a)
    ensures Work(Apply(s, a)) < Work(s)
  {
    var s', r := Apply(s, a), a.r;
    Moves(s, a);
    hide Apply, Enabled, Inv, ScanSound, Total, Rousing, Wakeups, Broadcast, Weight;
    if r in s'.pcs && s'.pcs == s.pcs[r := s'.pcs[r]] && Weight(s.maxSize, s'.pcs[r]) < Weight(s.maxSize, s.pcs[r]) {
      MovingBurns(s.maxSize, s.pcs, r, s'.pcs[r]);
    } else {
      LeavingBurns(s.maxSize, s.pcs, r);
    }
  }

  lemma MovingBurns(maxSize: nat, pcs: map<Request, Pc>, r: Request, pc: Pc)
    requires r in pcs && Weight(maxSize, pc) < Weight(maxSize, pcs[r])
    ensures Total(maxSize, pcs[r := pc]) < Total(maxSize, pcs) && |pcs[r := pc]| == |pcs|
  {
    TotalSet(maxSize, pcs, r, pc);
    hide Total;
    assert pcs[r := pc].Keys == pcs.Keys && |pcs[r := pc]| == |pcs[r := pc].Keys| && |pcs| == |pcs.Keys|;
  }

  lemma LeavingBurns(maxSize: nat, pcs: map<Request, Pc>, r: Request)
    requires r in pcs
    ensures var pcs' := Broadcast(pcs - {r});
      Total(maxSize, pcs') + Wakeups(|pcs'|, maxSize) < Total(maxSize, pcs) + Wakeups(|pcs|, maxSize)
  {
    hide Total, Rousing, Wakeups, Broadcast;
    var rest := pcs - {r};
    TotalRemove(maxSize, pcs, r);
    TotalBroadcast(maxSize, rest);
    assert |Broadcast(rest)| == |Broadcast(rest).Keys| == |rest.Keys| == |rest|;
    Shrinks(|rest|, maxSize);
  }

  lemma Shrinks(n: nat, maxSize: nat)
    ensures Wakeups(n, maxSize) + Rousing(n, maxSize) < Wakeups(n + 1, maxSize)
  {
    RousingOneMore(n, maxSize);
    var x, y := Rousing(n, maxSize), Rousing(n + 1, maxSize);
    hide Rousing;
    assert (n + 1) * y == n * y + y;
    assert n * y >= n * x by { assert n * y == n * x + n * (maxSize + 7); }
  }

  // --- As long as there are requests, one of them can move ---

  lemma SomeoneCanMove(s: Pool) returns (a: Step)
    requires Inv(s) && Live(s) && s.pcs != map[] && !s.mu.ByReaper?
    ensures OwnStep(a) && Enabled(s, a)
  {
    if s.mu.ByRequest? {
      assert s.mu.r in s.pcs && s.pcs[s.mu.r].Scanning?;
      a := OwnerStep(s);
    } else {
      var r :| r in s.pcs;
      if s.pcs[r].Asleep? {
        assert Sleeper(s);
        r :| r in s.pcs && Active(s.pcs[r]);
      }
      assert !s.pcs[r].Scanning?;
      hide Inv, Live;
      var x := NewInstance(s.tally.Keys);
      match s.pcs[r]
      case WantLock => a := Lock(r);
      case Spawning => a := SpawnOk(r, x);
      case Holding(_, stage) => a := if stage.Counted? then CountNanos(r, 0) else Unlock(r);
      case Unlocked => a := Signal(r);
    }
  }

  lemma OwnStepKeepsReaperOut(s: Pool, a: Step)
    requires Enabled(s, a) && OwnStep(a) && !s.mu.ByReaper?
    ensures !Apply(s, a).mu.ByReaper?
  {
    if Seeks(a) { SeekKeepsReaperOut(s, a); } else { FrameLocks(s, a); hide Apply; }
  }

  lemma SeekKeepsReaperOut(s: Pool, a: Step)
    requires Enabled(s, a) && Seeks(a) && !s.mu.ByReaper?
    ensures !Apply(s, a).mu.ByReaper?
  {
  }

  // --- Main result ---

  ghost predicate OwnMove(s: Pool, s': Pool) { exists a :: OwnStep(a) && Enabled(s, a) && s' == Apply(s, a) }

  ghost predicate OwnPath(path: seq<Pool>) {
    |path| > 0 && forall i :: 0 <= i < |path| - 1 ==> OwnMove(path[i], path[i + 1])
  }

  lemma {:induction false} PathBurns(path: seq<Pool>, n: nat)
    requires OwnPath(path) && n < |path| && Inv(path[0]) && Live(path[0]) && !path[0].mu.ByReaper?
    ensures Inv(path[n]) && Live(path[n]) && !path[n].mu.ByReaper?
    ensures n <= Work(path[0]) - Work(path[n])
  {
    if n > 0 {
      hide Apply, Enabled, Inv, Live, Work;
      PathBurns(path, n - 1);
      assert OwnMove(path[n - 1], path[n - 1 + 1]);
      var a :| OwnStep(a) && Enabled(path[n - 1], a) && path[n] == Apply(path[n - 1], a);
      StepKeepsInv(path[n - 1], a);
      StepKeepsLive(path[n - 1], a);
      OwnStepKeepsReaperOut(path[n - 1], a);
      LiveScans(path[n - 1]);
      StepBurns(path[n - 1], a);
    }
  }

  lemma LiveScans(s: Pool)
    requires Live(s)
    ensures ScanSound(s)
  {
  }

  /** From any reachable state, while no request arrives and the reaper does not
      interfere, the requests can only move so often, in whatever order they do;
      and they stop moving only when all of them are gone.  So no request waits
      for ever. */
  lemma EveryRequestFinishes(run: seq<Pool>, n: nat, path: seq<Pool>)
    requires IsRun(run) && n < |run| && !run[n].mu.ByReaper?
    requires OwnPath(path) && path[0] == run[n]
    ensures |path| - 1 <= Work(run[n])
    ensures path[|path| - 1].pcs == map[] || exists a :: OwnStep(a) && Enabled(path[|path| - 1], a)
  {
    RunKeepsInv(run, n);
    RunKeepsLive(run, n);
    hide Apply, Enabled, Inv, Live, Wakeups, Next;
    var last := path[|path| - 1];
    PathBurns(path, |path| - 1);
    TotalIsNatural(Weights(last.maxSize, last.pcs), last.pcs.Keys);
    if last.pcs != map[] { var a := SomeoneCanMove(last); }
  }

  // --- With the reaper, Stats and closing in between ---

  /** Any steps but arrivals. */
  ghost predicate IsTrace(path: seq<Pool>, acts: seq<Step>) {
    && |path| == |acts| + 1
    && forall t :: 0 <= t < |acts| ==>
        !acts[t].Arrive? && Enabled(path[t], acts[t]) && path[t + 1] == Apply(path[t], acts[t])
  }

  function OwnSteps(acts: seq<Step>, n: nat): nat
    requires n <= |acts|
  {
    if n == 0 then 0 else OwnSteps(acts, n - 1) + if OwnStep(acts[n - 1]) then 1 else 0
  }

  /** The reap passes that remove something and so wake every sleeper. */
  function Reapings(path: seq<Pool>, acts: seq<Step>, n: nat): nat
    requires n <= |acts| < |path|
  {
    if n == 0 then 0 else Reapings(path, acts, n - 1) + if Reaped(path[n - 1], acts[n - 1]) then 1 else 0
  }

  predicate Reaped(s: Pool, a: Step) { a.ReapEnd? && Wakes(s, a) }

  /** What a step of anybody else does to the work. */
  lemma OtherStep(s: Pool, a: Step)
    requires Enabled(s, a) && !OwnStep(a) && !a.Arrive?
    ensures var s' := Apply(s, a);
      && s'.maxSize == s.maxSize
      && s'.pcs == if Reaped(s, a) then Broadcast(s.pcs) else s.pcs
  {
    FrameSize(s, a);
    if !a.ReapEnd? {
      FrameLocks(s, a);
      hide Apply, Enabled;
    }
  }

  lemma LeavingShrinks(pcs: map<Request, Pc>, r: Request)
    requires r in pcs
    ensures |Broadcast(pcs - {r})| == |pcs| - 1
  {
    var rest := pcs - {r};
    assert Broadcast(rest).Keys == rest.Keys == pcs.Keys - {r};
    assert |Broadcast(rest)| == |Broadcast(rest).Keys| && |pcs| == |pcs.Keys|;
  }

  lemma SizeKept(s: Pool, a: Step)
    requires Inv(s) && ScanSound(s) && Enabled(s, a) && OwnStep(a)
    ensures Apply(s, a).maxSize == s.maxSize && |Apply(s, a).pcs| <= |s.pcs|
  {
    hide Apply, Inv, ScanSound, Weight, Broadcast, Total;
    Moves(s, a);
    hide Enabled;
    var pcs' := Apply(s, a).pcs;
    if pcs' == Broadcast(s.pcs - {a.r}) {
      LeavingShrinks(s.pcs, a.r);
    } else {
      MovingBurns(s.maxSize, s.pcs, a.r, pcs'[a.r]);
    }
  }

  lemma RousingGrows(m: nat, n: nat, maxSize: nat)
    requires m <= n
    ensures Rousing(m, maxSize) <= Rousing(n, maxSize)
  {
    assert n * (maxSize + 7) == m * (maxSize + 7) + (n - m) * (maxSize + 7);
  }

  /** Only a reaping raises the work, and by no more than one broadcast. */
  lemma OtherStepWork(s: Pool, a: Step)
    requires Enabled(s, a) && !OwnStep(a) && !a.Arrive?
    ensures var s' := Apply(s, a);
      && s'.maxSize == s.maxSize && |s'.pcs| == |s.pcs|
      && Work(s') <= Work(s) + if Reaped(s, a) then Rousing(|s.pcs|, s.maxSize) else 0
  {
    OtherStep(s, a);
    hide Apply, Enabled, Total, Rousing, Wakeups, Broadcast;
    if Reaped(s, a) {
      TotalBroadcast(s.maxSize, s.pcs);
      assert |Broadcast(s.pcs)| == |Broadcast(s.pcs).Keys| == |s.pcs.Keys| == |s.pcs|;
    }
  }

  /** The price of k such broadcasts. */
  function Price(k: nat, n: nat, maxSize: nat): nat { k * Rousing(n, maxSize) }

  lemma PriceOneMore(k: nat, n: nat, maxSize: nat)
    ensures Price(k + 1, n, maxSize) == Price(k, n, maxSize) + Rousing(n, maxSize)
  {
    var r := Rousing(n, maxSize);
    hide Rousing;
    assert (k + 1) * r == k * r + r;
  }

  /** One step of a trace: what it costs or adds, against n requests at the start. */
  lemma StepWork(s: Pool, a: Step, n: nat)
    requires Inv(s) && Live(s) && Enabled(s, a) && !a.Arrive? && |s.pcs| <= n
    ensures var s' := Apply(s, a);
      && Inv(s') && Live(s') && s'.maxSize == s.maxSize && |s'.pcs| <= n
      && Work(s') + (if OwnStep(a) then 1 else 0) <= Work(s) + if Reaped(s, a) then Rousing(n, s.maxSize) else 0
  {
    hide Apply, Inv, Live, Work, Rousing, Reaped;
    StepKeepsInv(s, a);
    StepKeepsLive(s, a);
    LiveScans(s);
    if OwnStep(a) {
      StepBurns(s, a);
      SizeKept(s, a);
    } else {
      OtherStepWork(s, a);
      RousingGrows(|s.pcs|, n, s.maxSize);
    }
  }

  lemma {:induction false} TraceBurns(path: seq<Pool>, acts: seq<Step>, n: nat)
    requires IsTrace(path, acts) && n <= |acts| && Inv(path[0]) && Live(path[0])
    ensures Inv(path[n]) && Live(path[n]) && path[n].maxSize == path[0].maxSize && |path[n].pcs| <= |path[0].pcs|
    ensures OwnSteps(acts, n) + Work(path[n]) <= Work(path[0]) + Price(Reapings(path, acts, n), |path[0].pcs|,
        path[0].maxSize)
  {
    hide Apply, Enabled, Inv, Live, Work, Price, Reaped;
    if n > 0 {
      var s, a := path[n - 1], acts[n - 1];
      assert Enabled(s, a) && path[n - 1 + 1] == Apply(s, a);
      TraceBurns(path, acts, n - 1);
      StepWork(s, a, |path[0].pcs|);
      PriceOneMore(Reapings(path, acts, n - 1), |path[0].pcs|, path[0].maxSize);
    }
  }

  /** The same with everybody else at work: however the reaper, Stats and closing
      interleave, the requests take no more steps than that bound and one broadcast
      for every reap pass that removed something; and whenever none of them can move,
      all of them are gone or the reaper holds the mutex and can go on. */
  lemma EveryRequestFinishesAnyway(run: seq<Pool>, n: nat, path: seq<Pool>, acts: seq<Step>)
    requires IsRun(run) && n < |run| && IsTrace(path, acts) && path[0] == run[n]
    ensures OwnSteps(acts, |acts|) <= Work(run[n]) + Price(Reapings(path, acts, |acts|), |run[n].pcs|, run[n].maxSize)
    ensures var last := path[|acts|];
      || last.pcs == map[]
      || (exists a :: OwnStep(a) && Enabled(last, a))
      || (last.mu.ByReaper? && Enabled(last, OwnerStep(last)))
  {
    RunKeepsInv(run, n);
    RunKeepsLive(run, n);
    TraceBurns(path, acts, |acts|);
    var last := path[|acts|];
    WorkIsNatural(last);
    if last.mu.ByReaper? {
      ReaperGoesOn(last);
    } else if last.pcs != map[] {
      hide Inv, Live, Enabled, Work, Rousing;
      var a := SomeoneCanMove(last);
    }
  }

  lemma WorkIsNatural(s: Pool)
    ensures Work(s) >= 0
  {
    TotalIsNatural(Weights(s.maxSize, s.pcs), s.pcs.Keys);
  }

  lemma ReaperGoesOn(s: Pool)
    requires Inv(s) && Live(s) && s.mu.ByReaper?
    ensures Enabled(s, OwnerStep(s))
  {
    OwnerMoves(s);
  }
}
