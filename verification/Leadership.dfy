/** Leader election among schedulers that share one exclusive lock. */
module Leadership {
  import opened Options

  /** What a scheduler is doing about leadership.  tryLeader runs only on the
      scheduler's own goroutine, and Stop waits for that goroutine first. */
  datatype Phase =
    | Fresh                            // Start not called yet
    | Trying                           // inside tryLeader, elector not asked yet
    | Won                              // elector granted the lock, not recorded yet
    | Refused                          // elector failed, not recorded yet
    | Running                          // in the run loop, between ticks
    | Quitting                         // run loop left, Stop holds the scheduler mutex
    | Released                         // release() done, flags not cleared yet
    | Stopped

  datatype Scheduler = Scheduler(phase: Phase, isLeader: bool, hasRelease: bool, wins: nat, releases: nat)

  /** `holder` is the exclusive lock: held until its release function runs. */
  datatype Cluster = Cluster(holder: Option<nat>, ss: seq<Scheduler>)

  datatype Step =
    | Begin(i: nat)                    // Start, or a tick of a scheduler that does not lead
    | Acquire(i: nat, granted: bool)   // the elector's answer
    | Record(i: nat)                   // the answer is written down under the mutex
    | Leave(i: nat)                    // Stop: the loop has ended, take the mutex
    | Release(i: nat)
    | Clear(i: nat)

  predicate Enabled(s: Cluster, a: Step) {
    && a.i < |s.ss|
    && var x := s.ss[a.i];
       match a
       case Begin(_) => x.phase.Fresh? || (x.phase.Running? && !x.isLeader)
       case Acquire(_, granted) => x.phase.Trying? && (granted ==> s.holder.None?)
       case Record(_) => x.phase.Won? || x.phase.Refused?
       case Leave(_) => x.phase.Running?
       case Release(_) => x.phase.Quitting? && x.hasRelease
       case Clear(_) => x.phase.Released? || (x.phase.Quitting? && !x.hasRelease)
  }

  function Apply(s: Cluster, a: Step): Cluster
    requires Enabled(s, a)
  {
    var i, x := a.i, s.ss[a.i];
    match a
    case Begin(_) => s.(ss := s.ss[i := x.(phase := Trying)])
    case Acquire(_, granted) =>
      if granted
      then Cluster(Some(i), s.ss[i := x.(phase := Won, wins := x.wins + 1)])
      else s.(ss := s.ss[i := x.(phase := Refused)])
    case Record(_) =>
      if x.phase.Won?
      then s.(ss := s.ss[i := x.(phase := Running, isLeader := true, hasRelease := true)])
      else s.(ss := s.ss[i := x.(phase := Running, isLeader := false)])
    case Leave(_) => s.(ss := s.ss[i := x.(phase := Quitting)])
    case Release(_) =>
      Cluster(
        if s.holder == Some(i) then None else s.holder,
        s.ss[i := x.(phase := Released, releases := x.releases + 1)])
    case Clear(_) =>
      if x.phase.Released?
      then s.(ss := s.ss[i := x.(phase := Stopped, isLeader := false, hasRelease := false)])
      else s.(ss := s.ss[i := x.(phase := Stopped)])
  }

  /** fire reads isLeader under the scheduler mutex, which Stop holds from
      Leave to Clear. */
  predicate PassesGate(s: Cluster, i: nat) {
    i < |s.ss| && s.ss[i].isLeader && !s.ss[i].phase.Quitting? && !s.ss[i].phase.Released?
  }

  predicate Init(s: Cluster) {
    s.holder.None? && forall x :: x in s.ss ==> x == Scheduler(Fresh, false, false, 0, 0)
  }

  ghost predicate Next(s: Cluster, s': Cluster) { exists a :: Enabled(s, a) && s' == Apply(s, a) }

  ghost predicate IsRun(run: seq<Cluster>) {
    && |run| > 0 && Init(run[0])
    && forall i :: 0 <= i < |run| - 1 ==> Next(run[i], run[i + 1])
  }

  /** A scheduler's flags, its history and the lock agree. */
  ghost predicate Sound(x: Scheduler, holds: bool) {
    && x.wins <= 1
    && x.wins == x.releases + (if holds then 1 else 0)
    && (holds <==> x.phase.Won? || (x.hasRelease && !x.phase.Released?))
    && (x.isLeader <==> x.hasRelease)
    && (x.phase.Released? ==> x.hasRelease)
    && (x.phase.Stopped? || x.phase.Fresh? || x.phase.Trying? || x.phase.Won? || x.phase.Refused? ==> !x.hasRelease)
    && (holds || x.phase.Released? || x.phase.Stopped? || x.wins == 0)
  }

  ghost predicate Inv(s: Cluster) {
    forall i :: 0 <= i < |s.ss| ==> Sound(s.ss[i], s.holder == Some(i))
  }

  lemma StepKeepsInv(s: Cluster, a: Step)
    requires Inv(s) && Enabled(s, a)
    ensures Inv(Apply(s, a))
  {
    var s' := Apply(s, a);
    assert Sound(s.ss[a.i], s.holder == Some(a.i));
    forall i | 0 <= i < |s'.ss| ensures Sound(s'.ss[i], s'.holder == Some(i)) {
      if i != a.i { assert Sound(s.ss[i], s.holder == Some(i)); }
    }
  }

  lemma {:induction false} RunKeepsInv(run: seq<Cluster>, n: nat)
    requires IsRun(run) && n < |run|
    ensures Inv(run[n])
  {
    if n == 0 {
      assert forall i :: 0 <= i < |run[0].ss| ==> run[0].ss[i] in run[0].ss;
    } else {
      RunKeepsInv(run, n - 1);
      assert Next(run[n - 1], run[n - 1 + 1]);
      var a :| Enabled(run[n - 1], a) && run[n] == Apply(run[n - 1], a);
      StepKeepsInv(run[n - 1], a);
    }
  }

  // --- Main results ---

  /** At most one scheduler can pass the fire gate at any moment. */
  lemma AtMostOneFires(run: seq<Cluster>, n: nat, i: nat, j: nat)
    requires IsRun(run) && n < |run| && PassesGate(run[n], i) && PassesGate(run[n], j)
    ensures i == j && run[n].holder == Some(i)
  {
    RunKeepsInv(run, n);
    assert Sound(run[n].ss[i], run[n].holder == Some(i));
    assert Sound(run[n].ss[j], run[n].holder == Some(j));
  }

  /** Every won lock is released exactly once, by Stop, and a stopped scheduler
      neither holds the lock nor leads. */
  lemma StopReleasesExactlyOnce(run: seq<Cluster>, n: nat, i: nat)
    requires IsRun(run) && n < |run| && i < |run[n].ss|
    ensures run[n].ss[i].releases <= run[n].ss[i].wins <= 1
    ensures run[n].ss[i].phase.Stopped? ==>
      run[n].ss[i].releases == run[n].ss[i].wins && run[n].holder != Some(i) && !run[n].ss[i].isLeader
  {
    RunKeepsInv(run, n);
    assert Sound(run[n].ss[i], run[n].holder == Some(i));
  }

  lemma StoppedStays(s: Cluster, s': Cluster, i: nat)
    requires Next(s, s') && i < |s.ss| && s.ss[i].phase.Stopped?
    ensures i < |s'.ss| && s'.ss[i] == s.ss[i]
  {
  }

  /** No leadership is taken after Stop: a stopped scheduler never changes again. */
  lemma {:induction false} StopIsFinal(run: seq<Cluster>, m: nat, n: nat, i: nat)
    requires IsRun(run) && m <= n < |run| && i < |run[m].ss| && run[m].ss[i].phase.Stopped?
    ensures i < |run[n].ss| && run[n].ss[i] == run[m].ss[i] && run[n].holder != Some(i)
    decreases n - m
  {
    if m < n {
      StopIsFinal(run, m, n - 1, i);
      assert Next(run[n - 1], run[n - 1 + 1]);
      StoppedStays(run[n - 1], run[n], i);
    }
    StopReleasesExactlyOnce(run, n, i);
  }

  ghost predicate Path(path: seq<Cluster>) {
    |path| > 0 && forall k :: 0 <= k < |path| - 1 ==> Next(path[k], path[k + 1])
  }

  /** The other schedulers are as they were. */
  predicate OthersStay(s: Cluster, s': Cluster, i: nat) {
    |s'.ss| == |s.ss| && forall j :: 0 <= j < |s.ss| && j != i ==> s'.ss[j] == s.ss[j]
  }

  function StepsLeft(x: Scheduler): nat {
    match x.phase
    case Trying => 5
    case Won => 4
    case Refused => 4
    case Running => 3
    case Quitting => 2
    case Released => 1
    case _ => 0
  }

  function StopStep(x: Scheduler, i: nat): Step {
    match x.phase
    case Trying => Acquire(i, false)
    case Running => Leave(i)
    case Quitting => if x.hasRelease then Release(i) else Clear(i)
    case Released => Clear(i)
    case _ => Record(i)
  }

  lemma StopMoves(s: Cluster, i: nat)
    requires Inv(s) && i < |s.ss| && StepsLeft(s.ss[i]) > 0
    ensures var a := StopStep(s.ss[i], i);
      && Enabled(s, a) && OthersStay(s, Apply(s, a), i)
      && (StepsLeft(Apply(s, a).ss[i]) < StepsLeft(s.ss[i]))
      && (StepsLeft(Apply(s, a).ss[i]) == 0 ==> Apply(s, a).ss[i].phase.Stopped?)
  {
    assert Sound(s.ss[i], s.holder == Some(i));
  }

  /** A scheduler that was started can always be stopped, without anybody else moving,
      whatever the elector answered; then it has given back the lock if it won it. */
  lemma {:induction false} CanAlwaysStop(s: Cluster, i: nat) returns (path: seq<Cluster>)
    requires Inv(s) && i < |s.ss| && !s.ss[i].phase.Fresh?
    ensures Path(path) && path[0] == s && OthersStay(s, path[|path| - 1], i)
    ensures var t := path[|path| - 1];
      t.ss[i].phase.Stopped? && !t.ss[i].isLeader && t.holder != Some(i) && t.ss[i].releases == t.ss[i].wins
    decreases StepsLeft(s.ss[i])
  {
    path := [s];
    if StepsLeft(s.ss[i]) > 0 {
      var a := StopStep(s.ss[i], i);
      StopMoves(s, i);
      StepKeepsInv(s, a);
      assert Next(s, Apply(s, a));
      hide Enabled, Apply, Inv, StopStep;
      var rest := CanAlwaysStop(Apply(s, a), i);
      path := [s] + rest;
      forall k | 0 <= k < |path| - 1 ensures Next(path[k], path[k + 1]) {
        if k > 0 { assert Next(rest[k - 1], rest[k - 1 + 1]); }
      }
    } else {
      assert Sound(s.ss[i], s.holder == Some(i));
    }
  }

  /** Fail-over is possible: when the leader has stopped, any scheduler in its
      run loop can win the lock on its next tick. */
  lemma SuccessorCanWin(s: Cluster, i: nat)
    requires Inv(s) && s.holder.None? && i < |s.ss| && s.ss[i].phase.Running?
    ensures Enabled(s, Begin(i))
    ensures var s1 := Apply(s, Begin(i));
            Enabled(s1, Acquire(i, true)) &&
            var s2 := Apply(s1, Acquire(i, true));
            Enabled(s2, Record(i)) && PassesGate(Apply(s2, Record(i)), i)
  {
    assert Sound(s.ss[i], s.holder == Some(i));
  }
}
