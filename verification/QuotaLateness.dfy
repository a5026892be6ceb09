/** The overshoot bound for every step a gateway can take: decisions that straddle a
    flush, units that are only observed and reads that fail count on top. */
module QuotaLateness {
  import opened BucketSums
  import opened QuotaLedger

  /** Of one gateway's units, those that were admitted by one-step decisions: in its
      counter, in the sample it has swapped out, and in the store as far as the gateway
      has had a chance to read them.  `extra` allows for the late admissions, the
      observed units, and the limit for every read that failed. */
  datatype Share = Share(local: nat, swapped: nat, pushed: map<nat, int>, extra: int)

  function Follow(limit: int, l: Limiter, x: Share, a: Step): Share {
    match a
    case Allow(_) => if Admits(limit, l) then x.(local := x.local + 1) else x
    case Observe(_, delta) => x.(extra := x.extra + delta)
    case LateAdmit(_) => x.(extra := x.extra + 1)
    case Swap(_, _) => x.(local := 0, swapped := x.local)
    case Push(_) => if l.phase.Swapped? then x.(swapped := 0, pushed := Add(x.pushed, l.phase.bucket, x.swapped)) else x
    case Drop(_) => x.(swapped := 0)
    case Refresh(_) => x
    case Miss(_) => if l.phase.Stored? then Unread(limit, l, x) else x
    case Flush(_, now) => x.(local := 0, pushed := Add(x.pushed, now, x.local))
  }

  /** What the gateway should have read and has not, is no longer counted. */
  function Unread(limit: int, l: Limiter, x: Share): Share
    requires l.phase.Stored?
  {
    var b, now := l.phase.bucket, At(x.pushed, l.phase.bucket);
    x.(pushed := if now > l.remote then Add(x.pushed, b, l.remote - now) else x.pushed, extra := x.extra + limit)
  }

  /** The gateway as if it had only those units. */
  function Only(l: Limiter, x: Share): Limiter {
    l.(local := x.local, pushed := x.pushed,
       phase := if l.phase.Swapped? then Swapped(l.phase.bucket, x.swapped) else l.phase)
  }

  function Sample(l: Limiter): nat { if l.phase.Swapped? then l.phase.delta else 0 }

  /** The other units are no more than the extra ones, wherever they are. */
  ghost predicate Covered(l: Limiter, x: Share) {
    && x.local <= l.local && x.swapped <= Sample(l)
    && forall b: nat ::
      && At(x.pushed, b) <= At(l.pushed, b)
      && At(l.pushed, b) - At(x.pushed, b) + (l.local - x.local) + (Sample(l) - x.swapped) <= x.extra
  }

  ghost predicate Fits(l: Limiter, x: Share, limit: int) { Covered(l, x) && Tame(Only(l, x), limit, 2 * limit) }

  ghost predicate AllFit(s: Cluster, xs: seq<Share>) {
    |xs| == |s.ls| && forall i :: 0 <= i < |xs| ==> Fits(s.ls[i], xs[i], s.limit)
  }

  // --- One gateway ---

  lemma FitsCounts(l: Limiter, x: Share, limit: int, a: Step)
    requires Fits(l, x, limit) && limit > 0 && (a.Allow? || a.Observe? || a.LateAdmit?)
    ensures var l' :=
              if a.Observe? then Count(l, a.delta) else if a.LateAdmit? || Admits(limit, l) then Count(l, 1) else l;
            Fits(l', Follow(limit, l, x, a), limit)
  {
  }

  lemma FitsSwap(l: Limiter, x: Share, limit: int, now: nat, i: nat)
    requires Fits(l, x, limit) && limit > 0 && l.phase.Idle? && now >= l.clock
    ensures Fits(SwapOut(l, now), Follow(limit, l, x, Swap(i, now)), limit)
  {
    TameSwap(Only(l, x), now, limit, 2 * limit);
    assert Only(SwapOut(l, now), Follow(limit, l, x, Swap(i, now))) == SwapOut(Only(l, x), now);
  }

  lemma FitsPush(l: Limiter, x: Share, limit: int, i: nat)
    requires Fits(l, x, limit) && l.phase.Swapped?
    ensures var b, d := l.phase.bucket, l.phase.delta;
            var l' := if d > 0 then l.(phase := Stored(b), pushed := Add(l.pushed, b, d)) else l.(phase := Stored(b));
            Fits(l', Follow(limit, l, x, Push(i)), limit)
  {
    var b, d := l.phase.bucket, l.phase.delta;
    TamePush(Only(l, x), b, x.swapped, limit, 2 * limit);
    var l' := if d > 0 then l.(phase := Stored(b), pushed := Add(l.pushed, b, d)) else l.(phase := Stored(b));
    var x' := Follow(limit, l, x, Push(i));
    forall k: nat
      ensures At(l'.pushed, k) - At(x'.pushed, k) ==
        At(l.pushed, k) - At(x.pushed, k) + (if k == b then d - x.swapped else 0)
    {
    }
  }

  lemma FitsRefresh(l: Limiter, x: Share, limit: int, remote: int)
    requires Fits(l, x, limit) && l.phase.Stored? && limit > 0 && remote >= At(l.pushed, l.phase.bucket)
    ensures Fits(l.(phase := Idle, remote := remote), x, limit)
  {
  }

  lemma FitsDrop(l: Limiter, x: Share, limit: int, i: nat)
    requires Fits(l, x, limit) && l.phase.Swapped? && limit > 0
    ensures Fits(DropOut(l), Follow(limit, l, x, Drop(i)), limit)
  {
  }

  lemma FitsMiss(l: Limiter, x: Share, limit: int)
    requires Fits(l, x, limit) && l.phase.Stored? && limit > 0
    ensures Fits(l.(phase := Idle), Unread(limit, l, x), limit)
  {
    var b, x' := l.phase.bucket, Unread(limit, l, x);
    var now := At(x.pushed, b);
    forall k: nat ensures At(x'.pushed, k) == if k == b && now > l.remote then l.remote else At(x.pushed, k) {}
    assert l.remote >= 0 && now <= l.remote + limit && b == l.clock;
  }

  // --- All of them ---

  lemma ReadsEnough(s: Cluster, i: nat)
    requires Agrees(s) && i < |s.ls| && s.ls[i].phase.Stored?
    requires forall l :: l in s.ls ==> forall b: nat :: At(l.pushed, b) >= 0
    ensures Since(s.usage, s.ls[i].phase.bucket) >= At(s.ls[i].pushed, s.ls[i].phase.bucket)
  {
    var b := s.ls[i].phase.bucket;
    TotalCovers(s.ls, i, Pushed(b));
    SinceCoversBucket(s.usage, b);
  }

  lemma PushAgrees(s: Cluster, i: nat)
    requires Agrees(s) && Enabled(s, Push(i))
    ensures Agrees(PushOut(s, i))
  {
    forall b: nat ensures At(PushOut(s, i).usage, b) == Total(PushOut(s, i).ls, Pushed(b)) {
      TotalUpdate(s.ls, i, PushOut(s, i).ls[i], Pushed(b));
    }
  }

  ghost predicate Holds(s: Cluster, xs: seq<Share>) { s.limit > 0 && Agrees(s) && AllFit(s, xs) }

  /** Putting one gateway that fits. */
  lemma PutFits(s: Cluster, xs: seq<Share>, i: nat, l: Limiter, x: Share)
    requires AllFit(s, xs) && i < |xs| && Fits(l, x, s.limit)
    ensures AllFit(s.(ls := s.ls[i := l]), xs[i := x])
  {
    hide Fits;
  }

  lemma NoneNegative(s: Cluster, xs: seq<Share>)
    requires AllFit(s, xs)
    ensures forall l :: l in s.ls ==> forall b: nat :: At(l.pushed, b) >= 0
  {
    forall l | l in s.ls ensures forall b: nat :: At(l.pushed, b) >= 0 {
      var i :| 0 <= i < |s.ls| && s.ls[i] == l;
      assert Fits(s.ls[i], xs[i], s.limit);
    }
  }

  lemma CountHolds(s: Cluster, xs: seq<Share>, a: Step)
    requires Holds(s, xs) && Enabled(s, a) && (a.Allow? || a.Observe? || a.LateAdmit?)
    ensures Holds(Apply(s, a), FollowAll(s, xs, a))
  {
    var i := a.i;
    var l' := Apply(s, a).ls[i];
    assert Fits(s.ls[i], xs[i], s.limit);
    FitsCounts(s.ls[i], xs[i], s.limit, a);
    PutFits(s, xs, i, l', Follow(s.limit, s.ls[i], xs[i], a));
    SamePushedAgrees(s, i, l');
    assert s.ls[i := s.ls[i]] == s.ls;
    hide Fits, Agrees, Follow;
  }

  lemma SwapHolds(s: Cluster, xs: seq<Share>, i: nat, now: nat)
    requires Holds(s, xs) && Enabled(s, Swap(i, now))
    ensures Holds(s.(ls := s.ls[i := SwapOut(s.ls[i], now)]), FollowAll(s, xs, Swap(i, now)))
  {
    assert Fits(s.ls[i], xs[i], s.limit);
    FitsSwap(s.ls[i], xs[i], s.limit, now, i);
    PutFits(s, xs, i, SwapOut(s.ls[i], now), Follow(s.limit, s.ls[i], xs[i], Swap(i, now)));
    SamePushedAgrees(s, i, SwapOut(s.ls[i], now));
    hide Fits, Agrees, Follow;
  }

  lemma PushHolds(s: Cluster, xs: seq<Share>, i: nat)
    requires Holds(s, xs) && Enabled(s, Push(i))
    ensures Holds(PushOut(s, i), FollowAll(s, xs, Push(i)))
  {
    assert Fits(s.ls[i], xs[i], s.limit);
    FitsPush(s.ls[i], xs[i], s.limit, i);
    PutFits(s, xs, i, PushOut(s, i).ls[i], Follow(s.limit, s.ls[i], xs[i], Push(i)));
    PushAgrees(s, i);
    hide Fits, Agrees, Follow;
  }

  lemma DropHolds(s: Cluster, xs: seq<Share>, i: nat)
    requires Holds(s, xs) && Enabled(s, Drop(i))
    ensures Holds(s.(ls := s.ls[i := DropOut(s.ls[i])]), FollowAll(s, xs, Drop(i)))
  {
    assert Fits(s.ls[i], xs[i], s.limit);
    FitsDrop(s.ls[i], xs[i], s.limit, i);
    PutFits(s, xs, i, DropOut(s.ls[i]), Follow(s.limit, s.ls[i], xs[i], Drop(i)));
    SamePushedAgrees(s, i, DropOut(s.ls[i]));
    hide Fits, Agrees, Follow;
  }

  lemma MissHolds(s: Cluster, xs: seq<Share>, i: nat)
    requires Holds(s, xs) && Enabled(s, Miss(i))
    ensures Holds(s.(ls := s.ls[i := s.ls[i].(phase := Idle)]), FollowAll(s, xs, Miss(i)))
  {
    assert Fits(s.ls[i], xs[i], s.limit);
    FitsMiss(s.ls[i], xs[i], s.limit);
    PutFits(s, xs, i, s.ls[i].(phase := Idle), Unread(s.limit, s.ls[i], xs[i]));
    SamePushedAgrees(s, i, s.ls[i].(phase := Idle));
    hide Fits, Agrees, Unread;
  }

  lemma RefreshHolds(s: Cluster, xs: seq<Share>, i: nat)
    requires Holds(s, xs) && Enabled(s, Refresh(i))
    ensures Holds(ReadBack(s, i), FollowAll(s, xs, Refresh(i)))
  {
    assert Fits(s.ls[i], xs[i], s.limit);
    NoneNegative(s, xs);
    ReadsEnough(s, i);
    FitsRefresh(s.ls[i], xs[i], s.limit, Since(s.usage, s.ls[i].phase.bucket));
    PutFits(s, xs, i, ReadBack(s, i).ls[i], xs[i]);
    SamePushedAgrees(s, i, ReadBack(s, i).ls[i]);
    hide Fits, Agrees;
  }

  /** Following a flush is following its three steps. */
  lemma FollowFlush(limit: int, l: Limiter, x: Share, i: nat, now: nat, l1: Limiter, l2: Limiter)
    requires x.swapped == 0 && l1 == SwapOut(l, now)
    ensures var x2 := Follow(limit, l1, Follow(limit, l, x, Swap(i, now)), Push(i));
      x2 == Follow(limit, l, x, Flush(i, now)) == Follow(limit, l2, x2, Refresh(i))
  {
  }

  lemma NothingSwapped(s: Cluster, xs: seq<Share>, i: nat)
    requires Holds(s, xs) && i < |s.ls| && s.ls[i].phase.Idle?
    ensures |xs| == |s.ls| && xs[i].swapped == 0
  {
    assert Fits(s.ls[i], xs[i], s.limit);
  }

  lemma SameSize(s: Cluster, xs: seq<Share>)
    requires Holds(s, xs)
    ensures |xs| == |s.ls|
  {
  }

  lemma FlushHolds(s: Cluster, xs: seq<Share>, i: nat, now: nat)
    requires Holds(s, xs) && Enabled(s, Flush(i, now))
    ensures |xs| == |s.ls| && Holds(Apply(s, Flush(i, now)), FollowAll(s, xs, Flush(i, now)))
  {
    hide Fits, Agrees, Holds, Follow;
    NothingSwapped(s, xs, i);
    var s1, xs1 := s.(ls := s.ls[i := SwapOut(s.ls[i], now)]), FollowAll(s, xs, Swap(i, now));
    SwapHolds(s, xs, i, now);
    SameSize(s1, xs1);
    var s2, xs2 := PushOut(s1, i), FollowAll(s1, xs1, Push(i));
    PushHolds(s1, xs1, i);
    SameSize(s2, xs2);
    RefreshHolds(s2, xs2, i);
    FollowFlush(s.limit, s.ls[i], xs[i], i, now, s1.ls[i], s2.ls[i]);
    assert FollowAll(s2, xs2, Refresh(i)) == FollowAll(s, xs, Flush(i, now));
  }

  function FollowAll(s: Cluster, xs: seq<Share>, a: Step): seq<Share>
    requires |xs| == |s.ls| && a.i < |xs|
  {
    xs[a.i := Follow(s.limit, s.ls[a.i], xs[a.i], a)]
  }

  lemma StepHolds(s: Cluster, xs: seq<Share>, a: Step)
    requires Holds(s, xs) && Enabled(s, a)
    ensures Holds(Apply(s, a), FollowAll(s, xs, a)) && Apply(s, a).limit == s.limit
  {
    hide Agrees, Fits, Follow;
    match a
    case Swap(i, now) => SwapHolds(s, xs, i, now);
    case Push(i) => PushHolds(s, xs, i);
    case Drop(i) => DropHolds(s, xs, i);
    case Refresh(i) => RefreshHolds(s, xs, i);
    case Miss(i) => MissHolds(s, xs, i);
    case Flush(i, now) => FlushHolds(s, xs, i, now);
    case _ => CountHolds(s, xs, a);
  }

  // --- Whole runs ---

  /** What one step allows for. */
  function ExtraOf(limit: int, a: Step): int {
    match a
    case Observe(_, delta) => delta
    case LateAdmit(_) => 1
    case Miss(_) => limit
    case _ => 0
  }

  /** What the first n steps allow for, of gateway i and of all. */
  function Extra(limit: int, acts: seq<Step>, i: nat, n: nat): int
    requires n <= |acts|
  {
    if n == 0 then 0 else Extra(limit, acts, i, n - 1) + if acts[n - 1].i == i then ExtraOf(limit, acts[n - 1]) else 0
  }

  function AllExtra(limit: int, acts: seq<Step>, n: nat): int
    requires n <= |acts|
  {
    if n == 0 then 0 else AllExtra(limit, acts, n - 1) + ExtraOf(limit, acts[n - 1])
  }

  function ExtraSum(xs: seq<Share>): int { if xs == [] then 0 else xs[0].extra + ExtraSum(xs[1..]) }

  lemma {:induction false} ExtraSumUpdate(xs: seq<Share>, i: nat, x: Share)
    requires i < |xs|
    ensures ExtraSum(xs[i := x]) == ExtraSum(xs) + x.extra - xs[i].extra
  {
    if i == 0 {
      assert xs[0 := x][1..] == xs[1..];
    } else {
      assert xs[i := x][1..] == xs[1..][i - 1 := x];
      ExtraSumUpdate(xs[1..], i - 1, x);
    }
  }

  lemma {:induction false} ExtraSumZero(xs: seq<Share>)
    requires forall i :: 0 <= i < |xs| ==> xs[i].extra == 0
    ensures ExtraSum(xs) == 0
  {
    if xs != [] { ExtraSumZero(xs[1..]); }
  }

  lemma FollowExtra(limit: int, l: Limiter, x: Share, a: Step)
    requires a.Miss? ==> l.phase.Stored?
    ensures Follow(limit, l, x, a).extra == x.extra + ExtraOf(limit, a)
  {
  }

  ghost predicate Tallied(limit: int, xs: seq<Share>, acts: seq<Step>, n: nat)
    requires n <= |acts|
  {
    && (forall i :: 0 <= i < |xs| ==> xs[i].extra == Extra(limit, acts, i, n))
    && ExtraSum(xs) == AllExtra(limit, acts, n)
  }

  lemma StepTallied(s: Cluster, xs: seq<Share>, acts: seq<Step>, n: nat)
    requires 0 < n <= |acts| && |xs| == |s.ls| && Enabled(s, acts[n - 1]) && Tallied(s.limit, xs, acts, n - 1)
    ensures Tallied(s.limit, FollowAll(s, xs, acts[n - 1]), acts, n)
  {
    var a := acts[n - 1];
    FollowExtra(s.limit, s.ls[a.i], xs[a.i], a);
    ExtraSumUpdate(xs, a.i, Follow(s.limit, s.ls[a.i], xs[a.i], a));
    hide Follow, ExtraSum;
  }

  lemma {:induction false} RunHolds(run: seq<Cluster>, acts: seq<Step>, n: nat) returns (xs: seq<Share>)
    requires IsTrace(run, acts) && n <= |acts| && run[0].limit > 0
    ensures Holds(run[n], xs) && run[n].limit == run[0].limit && |xs| == |run[0].ls|
    ensures Tallied(run[0].limit, xs, acts, n)
  {
    if n == 0 {
      xs := seq(|run[0].ls|, _ => Share(0, 0, map[], 0));
      StartHolds(run[0], xs);
      ExtraSumZero(xs);
    } else {
      hide Apply, Agrees, Fits, Follow, Init, Tallied;
      var before := RunHolds(run, acts, n - 1);
      var s, a := run[n - 1], acts[n - 1];
      assert Enabled(s, a) && run[n - 1 + 1] == Apply(s, a);
      hide Enabled;
      StepHolds(s, before, a);
      StepTallied(s, before, acts, n);
      xs := FollowAll(s, before, a);
    }
  }

  lemma StartHolds(s: Cluster, xs: seq<Share>)
    requires Init(s) && s.limit > 0 && |xs| == |s.ls| && forall i :: 0 <= i < |xs| ==> xs[i] == Share(0, 0, map[], 0)
    ensures Holds(s, xs)
  {
    forall b: nat ensures Total(s.ls, Pushed(b)) == 0 { TotalZero(s.ls, Pushed(b)); }
    forall i | 0 <= i < |xs| ensures Fits(s.ls[i], xs[i], s.limit) { assert s.ls[i] in s.ls; }
  }

  lemma {:induction false} TotalWithExtra(ls: seq<Limiter>, xs: seq<Share>, b: nat, cap: nat)
    requires |ls| == |xs| && forall i :: 0 <= i < |xs| ==> At(ls[i].pushed, b) <= cap + xs[i].extra
    ensures Total(ls, Pushed(b)) <= |ls| * cap + ExtraSum(xs)
  {
    if ls != [] {
      TotalWithExtra(ls[1..], xs[1..], b, cap);
      assert |ls| * cap == cap + (|ls| - 1) * cap;
    }
  }

  /** The overshoot bound for all steps, decisions that straddle a flush, observed
      units, failed pushes and reads, and flushes of either kind included: a gateway
      adds at most twice the limit to any minute, plus its late admissions and
      observed units, plus the limit for every read that failed; and so do all of
      them together. */
  lemma OvershootWithLateness(run: seq<Cluster>, acts: seq<Step>, b: nat)
    requires IsTrace(run, acts) && run[0].limit > 0
    ensures var n, s, limit := |acts|, run[|acts|], run[0].limit;
      && |s.ls| == |run[0].ls|
      && (forall i :: 0 <= i < |s.ls| ==> At(s.ls[i].pushed, b) <= 2 * limit + Extra(limit, acts, i, n))
      && At(s.usage, b) <= |s.ls| * (2 * limit) + AllExtra(limit, acts, n)
  {
    var xs := RunHolds(run, acts, |acts|);
    var s := run[|acts|];
    forall i | 0 <= i < |s.ls| ensures At(s.ls[i].pushed, b) <= 2 * run[0].limit + xs[i].extra {
      assert Fits(s.ls[i], xs[i], s.limit);
    }
    TotalWithExtra(s.ls, xs, b, 2 * run[0].limit);
  }

  // --- The bound is sharp ---

  lemma Continue(run: seq<Cluster>, acts: seq<Step>, a: Step) returns (run': seq<Cluster>, acts': seq<Step>)
    requires IsTrace(run, acts) && Enabled(run[|acts|], a)
    ensures IsTrace(run', acts') && run'[0] == run[0] && acts' == acts + [a] && |run'| == |acts'| + 1
    ensures run'[|acts'|] == Apply(run[|acts|], a)
    ensures AllExtra(run[0].limit, acts', |acts'|) == AllExtra(run[0].limit, acts, |acts|) + ExtraOf(run[0].limit, a)
  {
    hide Apply, Enabled, Init, ExtraOf;
    run', acts' := run + [Apply(run[|acts|], a)], acts + [a];
    SameExtra(run[0].limit, acts, a, |acts|);
  }

  lemma {:induction false} SameExtra(limit: int, acts: seq<Step>, a: Step, n: nat)
    requires n <= |acts|
    ensures AllExtra(limit, acts + [a], n) == AllExtra(limit, acts, n)
  {
    if n > 0 { SameExtra(limit, acts, a, n - 1); }
  }

  lemma {:induction false} AllowsMore(run: seq<Cluster>, acts: seq<Step>, k: nat)
    returns (run': seq<Cluster>, acts': seq<Step>)
    requires IsTrace(run, acts) && |run| == |acts| + 1
    requires var s := run[|acts|]; |s.ls| == 1 && s.ls[0].remote + s.ls[0].local + k <= s.limit
    ensures IsTrace(run', acts') && run'[0] == run[0] && |run'| == |acts'| + 1
    ensures var s := run[|acts|]; run'[|acts'|] == s.(ls := [Count(s.ls[0], k)])
    ensures AllExtra(run[0].limit, acts', |acts'|) == AllExtra(run[0].limit, acts, |acts|)
    decreases k
  {
    hide IsTrace, AllExtra, Enabled, Apply;
    run', acts' := run, acts;
    var s := run[|acts|];
    if k > 0 {
      run', acts' := AllowsMore(run, acts, k - 1);
      AdmitsOne(run'[|acts'|]);
      run', acts' := Continue(run', acts', Allow(0));
      assert Count(Count(s.ls[0], k - 1), 1) == Count(s.ls[0], k);
    } else {
      assert Count(s.ls[0], 0) == s.ls[0];
    }
  }

  lemma AdmitsOne(s: Cluster)
    requires |s.ls| == 1 && s.ls[0].remote + s.ls[0].local + 1 <= s.limit
    ensures Enabled(s, Allow(0)) && Apply(s, Allow(0)) == s.(ls := [Count(s.ls[0], 1)])
  {
  }

  /** One gateway whose reads have failed so far: it has nothing in its counter, and
      the table holds the limit once for every read that failed. */
  predicate Blind(s: Cluster, limit: nat, k: nat) {
    && s.limit == limit && |s.ls| == 1 && At(s.usage, 0) == k * limit
    && s.ls[0].phase.Idle? && s.ls[0].local == 0 && s.ls[0].remote == 0 && s.ls[0].clock == 0
  }

  lemma {:induction false} BlindRun(limit: nat, k: nat) returns (run: seq<Cluster>, acts: seq<Step>)
    requires limit > 0
    ensures IsTrace(run, acts) && run[0].limit == limit && |run[0].ls| == 1
    ensures Blind(run[|acts|], limit, k) && AllExtra(limit, acts, |acts|) == k * limit
  {
    if k == 0 {
      run, acts := [Cluster(limit, [Limiter(0, 0, Idle, 0, map[], 0, 0)], map[])], [];
    } else {
      run, acts := BlindRun(limit, k - 1);
      hide IsTrace, AllExtra;
      run, acts := FillAndPush(run, acts, limit, k - 1);
      MissIsSilent(run[|acts|]);
      run, acts := Continue(run, acts, Miss(0));
      hide Blind, Apply;
      assert (k - 1) * limit + limit == k * limit;
    }
  }

  lemma MissIsSilent(s: Cluster)
    requires |s.ls| == 1 && s.ls[0].phase.Stored?
    ensures Enabled(s, Miss(0)) && Apply(s, Miss(0)) == s.(ls := [s.ls[0].(phase := Idle)])
  {
  }

  /** A whole limit is admitted, swapped out and pushed. */
  lemma FillAndPush(run: seq<Cluster>, acts: seq<Step>, limit: nat, k: nat)
    returns (run': seq<Cluster>, acts': seq<Step>)
    requires IsTrace(run, acts) && Blind(run[|acts|], limit, k) && limit > 0 && run[0].limit == limit
    ensures IsTrace(run', acts') && run'[0] == run[0]
    ensures var s := run'[|acts'|];
      |s.ls| == 1 && s.ls[0].phase.Stored? && Blind(s.(ls := [s.ls[0].(phase := Idle)]), limit, k + 1)
    ensures AllExtra(limit, acts', |acts'|) == AllExtra(limit, acts, |acts|)
  {
    run', acts' := AllowsMore(run, acts, limit);
    hide IsTrace, AllExtra;
    run', acts' := Continue(run', acts', Swap(0, 0));
    run', acts' := Continue(run', acts', Push(0));
    assert (k + 1) * limit == k * limit + limit;
  }

  /** A whole limit is admitted before the push, and another one after the swap. */
  lemma FillTwice(run: seq<Cluster>, acts: seq<Step>, limit: nat, k: nat)
    returns (run': seq<Cluster>, acts': seq<Step>)
    requires IsTrace(run, acts) && Blind(run[|acts|], limit, k) && limit > 0 && run[0].limit == limit
    ensures IsTrace(run', acts') && run'[0] == run[0]
    ensures var s := run'[|acts'|];
      && |s.ls| == 1 && s.ls[0].phase.Stored? && s.ls[0].local == limit && s.ls[0].clock == 0
      && At(s.usage, 0) == k * limit + limit
    ensures AllExtra(limit, acts', |acts'|) == AllExtra(limit, acts, |acts|)
  {
    run', acts' := AllowsMore(run, acts, limit);
    hide IsTrace, AllExtra;
    run', acts' := Continue(run', acts', Swap(0, 0));
    run', acts' := AllowsMore(run', acts', limit);
    run', acts' := Continue(run', acts', Push(0));
  }

  /** Reads that fail k times let one gateway reach the bound, for every k. */
  lemma OvershootWithMissesIsReached(limit: nat, k: nat) returns (run: seq<Cluster>, acts: seq<Step>)
    requires limit > 0
    ensures IsTrace(run, acts) && run[0].limit == limit && |run[0].ls| == 1
    ensures AllExtra(limit, acts, |acts|) == k * limit
    ensures At(run[|acts|].usage, 0) == 2 * limit + k * limit
  {
    run, acts := BlindRun(limit, k);
    run, acts := FillTwice(run, acts, limit, k);
    hide IsTrace, AllExtra;
    run, acts := Continue(run, acts, Refresh(0));
    run, acts := Continue(run, acts, Swap(0, 0));
    run, acts := Continue(run, acts, Push(0));
  }
}
