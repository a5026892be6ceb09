/** Many gateways share one quota: local counters, the periodic flush in three
    steps (swap, push, refresh), and the per-minute usage table of the store. */
module QuotaLedger {
  import opened BucketSums

  datatype Phase = Idle | Swapped(bucket: nat, delta: nat) | Stored(bucket: nat)

  /** One gateway's view of one (project, kind).  `clock` is the minute of its
      latest flush; `pushed`, `counted` and `lost` are history. */
  datatype Limiter =
    Limiter(local: nat, remote: int, phase: Phase, clock: nat, pushed: map<nat, int>, counted: nat, lost: nat)

  datatype Cluster = Cluster(limit: int, ls: seq<Limiter>, usage: map<nat, int>)

  datatype Step =
    | Allow(i: nat)                    // the whole decision of one Allow call
    | Observe(i: nat, delta: nat)
    | LateAdmit(i: nat)                // the CAS of an Allow that read limit and remote earlier
    | Swap(i: nat, now: nat)
    | Push(i: nat)
    | Drop(i: nat)                     // the store refuses the sample, and the error is ignored
    | Refresh(i: nat)
    | Miss(i: nat)                     // the store cannot be read back
    | Flush(i: nat, now: nat)          // swap, push and refresh without interruption

  /** Which steps a run may take. */
  datatype Mode = AnyCalls | SplitFlush | WholeFlush

  predicate Permits(mode: Mode, a: Step) {
    match mode
    case AnyCalls => true
    case SplitFlush => a.Allow? || a.Swap? || a.Push? || a.Drop? || a.Refresh?
    case WholeFlush => a.Allow? || a.Flush?
  }

  predicate Enabled(s: Cluster, a: Step) {
    && a.i < |s.ls|
    && var l := s.ls[a.i];
       match a
       case Swap(_, now) => l.phase.Idle? && now >= l.clock
       case Flush(_, now) => l.phase.Idle? && now >= l.clock
       case Push(_) => l.phase.Swapped?
       case Drop(_) => l.phase.Swapped?
       case Refresh(_) => l.phase.Stored?
       case Miss(_) => l.phase.Stored?
       case _ => true
  }

  function Admits(limit: int, l: Limiter): bool { limit <= 0 || l.remote + l.local + 1 <= limit }

  function Count(l: Limiter, n: nat): Limiter { l.(local := l.local + n, counted := l.counted + n) }

  function SwapOut(l: Limiter, now: nat): Limiter {
    l.(local := 0, phase := Swapped(now, l.local), clock := now)
  }

  /** AddQuotaUsage is called for positive samples only. */
  function PushOut(s: Cluster, i: nat): Cluster
    requires i < |s.ls| && s.ls[i].phase.Swapped?
  {
    var l := s.ls[i];
    var b, d := l.phase.bucket, l.phase.delta;
    if d > 0
    then s.(ls := s.ls[i := l.(phase := Stored(b), pushed := Add(l.pushed, b, d))], usage := Add(s.usage, b, d))
    else s.(ls := s.ls[i := l.(phase := Stored(b))])
  }

  function DropOut(l: Limiter): Limiter
    requires l.phase.Swapped?
  {
    l.(phase := Stored(l.phase.bucket), lost := l.lost + l.phase.delta)
  }

  ghost function ReadBack(s: Cluster, i: nat): Cluster
    requires i < |s.ls| && s.ls[i].phase.Stored?
  {
    s.(ls := s.ls[i := s.ls[i].(phase := Idle, remote := Since(s.usage, s.ls[i].phase.bucket))])
  }

  ghost function Apply(s: Cluster, a: Step): Cluster
    requires Enabled(s, a)
  {
    match a
    case Allow(i) => if Admits(s.limit, s.ls[i]) then s.(ls := s.ls[i := Count(s.ls[i], 1)]) else s
    case Observe(i, delta) => s.(ls := s.ls[i := Count(s.ls[i], delta)])
    case LateAdmit(i) => s.(ls := s.ls[i := Count(s.ls[i], 1)])
    case Swap(i, now) => s.(ls := s.ls[i := SwapOut(s.ls[i], now)])
    case Push(i) => PushOut(s, i)
    case Drop(i) => s.(ls := s.ls[i := DropOut(s.ls[i])])
    case Refresh(i) => ReadBack(s, i)
    case Miss(i) => s.(ls := s.ls[i := s.ls[i].(phase := Idle)])
    case Flush(i, now) => ReadBack(PushOut(s.(ls := s.ls[i := SwapOut(s.ls[i], now)]), i), i)
  }

  predicate Init(s: Cluster) {
    && s.usage == map[]
    && forall l :: l in s.ls ==> l == Limiter(0, 0, Idle, 0, map[], 0, 0)
  }

  ghost predicate Next(s: Cluster, s': Cluster, mode: Mode) {
    exists a :: Permits(mode, a) && Enabled(s, a) && s' == Apply(s, a)
  }

  ghost predicate IsRun(run: seq<Cluster>, mode: Mode) {
    && |run| > 0 && Init(run[0])
    && forall i :: 0 <= i < |run| - 1 ==> Next(run[i], run[i + 1], mode)
  }

  // --- Sums over the gateways ---

  datatype Column = Counted | Held | Lost | Pushed(bucket: nat)

  function Value(l: Limiter, c: Column): int {
    match c
    case Counted => l.counted
    case Lost => l.lost
    case Held => l.local + if l.phase.Swapped? then l.phase.delta else 0
    case Pushed(b) => At(l.pushed, b)
  }

  function Total(ls: seq<Limiter>, c: Column): int {
    if ls == [] then 0 else Value(ls[0], c) + Total(ls[1..], c)
  }

  lemma {:induction false} TotalUpdate(ls: seq<Limiter>, i: nat, l: Limiter, c: Column)
    requires i < |ls|
    ensures Total(ls[i := l], c) == Total(ls, c) - Value(ls[i], c) + Value(l, c)
  {
    if i == 0 {
      assert ls[0 := l][1..] == ls[1..];
    } else {
      assert ls[i := l][1..] == ls[1..][i - 1 := l];
      TotalUpdate(ls[1..], i - 1, l, c);
    }
  }

  lemma {:induction false} TotalZero(ls: seq<Limiter>, c: Column)
    requires forall l :: l in ls ==> Value(l, c) == 0
    ensures Total(ls, c) == 0
  {
    if ls != [] {
      assert ls[0] in ls;
      TotalZero(ls[1..], c);
    }
  }

  lemma {:induction false} TotalCovers(ls: seq<Limiter>, i: nat, c: Column)
    requires i < |ls| && forall l :: l in ls ==> Value(l, c) >= 0
    ensures Total(ls, c) >= Value(ls[i], c)
    ensures Total(ls, c) >= 0
  {
    assert ls[i] in ls && ls[0] in ls;
    if i > 0 {
      TotalCovers(ls[1..], i - 1, c);
    } else if |ls| > 1 {
      TotalCovers(ls[1..], 0, c);
    }
  }

  lemma {:induction false} TotalBound(ls: seq<Limiter>, c: Column, cap: int)
    requires forall l :: l in ls ==> Value(l, c) <= cap
    ensures Total(ls, c) <= |ls| * cap
  {
    if ls != [] {
      assert ls[0] in ls;
      TotalBound(ls[1..], c, cap);
      assert |ls| * cap == cap + (|ls| - 1) * cap;
    }
  }

  // --- Conservation ---

  /** Everything counted is in a counter, in flight, in the table, or lost. */
  ghost predicate Conserved(s: Cluster) {
    Total(s.ls, Counted) == Total(s.ls, Held) + Total(s.ls, Lost) + Sum(s.usage, s.usage.Keys)
  }

  lemma PutConserves(s: Cluster, i: nat, l: Limiter)
    requires Conserved(s) && i < |s.ls|
    requires l.counted - s.ls[i].counted == Value(l, Held) - Value(s.ls[i], Held) + l.lost - s.ls[i].lost
    ensures Conserved(s.(ls := s.ls[i := l]))
  {
    TotalUpdate(s.ls, i, l, Counted);
    TotalUpdate(s.ls, i, l, Held);
    TotalUpdate(s.ls, i, l, Lost);
  }

  lemma PushConserves(s: Cluster, i: nat)
    requires Conserved(s) && i < |s.ls| && s.ls[i].phase.Swapped?
    ensures Conserved(PushOut(s, i))
  {
    var l' := PushOut(s, i).ls[i];
    TotalUpdate(s.ls, i, l', Counted);
    TotalUpdate(s.ls, i, l', Held);
    TotalUpdate(s.ls, i, l', Lost);
    SumAdd(s.usage, s.ls[i].phase.bucket, s.ls[i].phase.delta);
  }

  lemma StepConserves(s: Cluster, a: Step)
    requires Conserved(s) && Enabled(s, a)
    ensures Conserved(Apply(s, a))
  {
    hide Conserved;
    var i, l := a.i, s.ls[a.i];
    match a
    case Allow(_) => if Admits(s.limit, l) { PutConserves(s, i, Count(l, 1)); }
    case Observe(_, delta) => PutConserves(s, i, Count(l, delta));
    case LateAdmit(_) => PutConserves(s, i, Count(l, 1));
    case Swap(_, now) => PutConserves(s, i, SwapOut(l, now));
    case Push(_) => PushConserves(s, i);
    case Drop(_) => PutConserves(s, i, DropOut(l));
    case Refresh(_) => PutConserves(s, i, ReadBack(s, i).ls[i]);
    case Miss(_) => PutConserves(s, i, l.(phase := Idle));
    case Flush(_, now) =>
      var s1 := s.(ls := s.ls[i := SwapOut(l, now)]);
      PutConserves(s, i, SwapOut(l, now));
      PushConserves(s1, i);
      PutConserves(PushOut(s1, i), i, ReadBack(PushOut(s1, i), i).ls[i]);
  }

  /** Usage conservation: in every interleaving of Allow, Observe and the steps
      of every flush, no unit is lost but in pushes that fail, and none is written
      twice. */
  lemma {:induction false} UsageIsConserved(run: seq<Cluster>, mode: Mode, n: nat)
    requires IsRun(run, mode) && n < |run|
    ensures var s := run[n];
      Total(s.ls, Counted) == Total(s.ls, Held) + Total(s.ls, Lost) + Sum(s.usage, s.usage.Keys)
  {
    if n == 0 {
      TotalZero(run[0].ls, Lost);
      TotalZero(run[0].ls, Counted);
      TotalZero(run[0].ls, Held);
    } else {
      UsageIsConserved(run, mode, n - 1);
      assert Next(run[n - 1], run[n - 1 + 1], mode);
      var a :| Permits(mode, a) && Enabled(run[n - 1], a) && run[n] == Apply(run[n - 1], a);
      StepConserves(run[n - 1], a);
    }
  }

  predicate NothingLost(s: Cluster) { forall l :: l in s.ls ==> l.lost == 0 }

  lemma {:induction false} LostIff(ls: seq<Limiter>)
    ensures Total(ls, Lost) >= 0
    ensures Total(ls, Lost) == 0 <==> forall l :: l in ls ==> l.lost == 0
  {
    if ls != [] {
      LostIff(ls[1..]);
      assert ls == [ls[0]] + ls[1..];
      assert ls[0] in ls;
    }
  }

  /** With nothing left in counters or between steps, everything ever counted is
      in the store if and only if no push failed. */
  lemma ClosedMeansStored(run: seq<Cluster>, mode: Mode, n: nat)
    requires IsRun(run, mode) && n < |run|
    requires forall l :: l in run[n].ls ==> l.phase.Idle? && l.local == 0
    ensures var stored := Sum(run[n].usage, run[n].usage.Keys);
      && stored + Total(run[n].ls, Lost) == Total(run[n].ls, Counted)
      && (stored == Total(run[n].ls, Counted) <==> NothingLost(run[n]))
  {
    UsageIsConserved(run, mode, n);
    TotalZero(run[n].ls, Held);
    LostIff(run[n].ls);
  }

  lemma Extend(run: seq<Cluster>, mode: Mode, a: Step) returns (longer: seq<Cluster>)
    requires IsRun(run, mode) && Permits(mode, a) && Enabled(run[|run| - 1], a)
    ensures IsRun(longer, mode) && longer == run + [Apply(run[|run| - 1], a)]
  {
    hide Apply, Enabled;
    var s := run[|run| - 1];
    longer := run + [Apply(s, a)];
    assert Next(s, Apply(s, a), mode);
    forall i | 0 <= i < |longer| - 1 ensures Next(longer[i], longer[i + 1], mode) {
      if i < |run| - 1 { assert Next(run[i], run[i + 1], mode); }
    }
  }

  /** Nothing of l is left outside the store. */
  predicate Empty(l: Limiter) { l.phase.Idle? && l.local == 0 }

  /** The final flush of Close empties one gateway and touches no other. */
  lemma FlushEmpties(s: Cluster, i: nat, now: nat)
    requires Enabled(s, Flush(i, now))
    ensures var s' := Apply(s, Flush(i, now));
      && |s'.ls| == |s.ls| && Empty(s'.ls[i]) && s'.ls[i].counted == s.ls[i].counted && s'.ls[i].lost == s.ls[i].lost
      && forall j :: 0 <= j < |s.ls| && j != i ==> s'.ls[j] == s.ls[j]
  {
  }

  /** The gateways from the k-th on can be flushed at these times, in between two
      flushes of their own; those before have been. */
  ghost predicate Closing(ls: seq<Limiter>, k: nat, nows: seq<nat>) {
    && |nows| == |ls|
    && (forall j :: 0 <= j < |ls| && j < k ==> Empty(ls[j]))
    && (forall j :: k <= j < |ls| ==> ls[j].phase.Idle? && ls[j].clock <= nows[j])
  }

  ghost predicate CountedAlike(ls: seq<Limiter>, ls': seq<Limiter>) {
    |ls| == |ls'| && forall j :: 0 <= j < |ls| ==> ls'[j].counted == ls[j].counted && ls'[j].lost == ls[j].lost
  }

  /** Close on every gateway from the k-th on, each at a time of its own. */
  lemma {:induction false} CloseFrom(run: seq<Cluster>, k: nat, nows: seq<nat>) returns (longer: seq<Cluster>)
    requires IsRun(run, AnyCalls) && k <= |nows| && Closing(run[|run| - 1].ls, k, nows)
    ensures IsRun(longer, AnyCalls) && run <= longer
    ensures Closing(longer[|longer| - 1].ls, |nows|, nows)
    ensures CountedAlike(run[|run| - 1].ls, longer[|longer| - 1].ls)
    decreases |nows| - k
  {
    var s := run[|run| - 1];
    longer := run;
    if k < |nows| {
      FlushEmpties(s, k, nows[k]);
      longer := Extend(run, AnyCalls, Flush(k, nows[k]));
      hide Apply, Enabled, Next;
      longer := CloseFrom(longer, k + 1, nows);
    }
  }

  /** Every gateway that is between two flushes can be closed, and then all units that
      were ever counted are in the store, or were lost before. */
  lemma EveryoneCanClose(run: seq<Cluster>, nows: seq<nat>) returns (longer: seq<Cluster>)
    requires IsRun(run, AnyCalls) && Closing(run[|run| - 1].ls, 0, nows)
    ensures IsRun(longer, AnyCalls) && run <= longer
    ensures var stored := Sum(longer[|longer| - 1].usage, longer[|longer| - 1].usage.Keys);
      stored == Total(run[|run| - 1].ls, Counted) - Total(run[|run| - 1].ls, Lost)
  {
    longer := CloseFrom(run, 0, nows);
    var ls := longer[|longer| - 1].ls;
    forall l | l in ls ensures Empty(l) {
      var j :| 0 <= j < |ls| && ls[j] == l;
    }
    ClosedMeansStored(longer, AnyCalls, |longer| - 1);
    SameCounted(run[|run| - 1].ls, ls);
  }

  lemma {:induction false} SameCounted(ls: seq<Limiter>, ls': seq<Limiter>)
    requires CountedAlike(ls, ls')
    ensures Total(ls', Counted) == Total(ls, Counted) && Total(ls', Lost) == Total(ls, Lost)
  {
    if ls != [] { SameCounted(ls[1..], ls'[1..]); }
  }

  /** acts[t] is the step from run[t] to run[t + 1]. */
  ghost predicate IsTrace(run: seq<Cluster>, acts: seq<Step>) {
    && |run| == |acts| + 1 && Init(run[0])
    && forall t :: 0 <= t < |acts| ==> Enabled(run[t], acts[t]) && run[t + 1] == Apply(run[t], acts[t])
  }

  predicate CountsAt(a: Step, i: nat) { (a.Allow? || a.Observe? || a.LateAdmit?) && a.i == i }

  predicate SwapsAt(a: Step, i: nat) { (a.Swap? || a.Flush?) && a.i == i }

  /** Gateway i swaps its counter at step t and is not called afterwards. */
  predicate LastSwap(acts: seq<Step>, i: nat, t: nat) {
    t < |acts| && SwapsAt(acts[t], i) && forall u :: t < u < |acts| ==> !CountsAt(acts[u], i)
  }

  lemma {:induction false} TraceIsRun(run: seq<Cluster>, acts: seq<Step>)
    requires IsTrace(run, acts)
    ensures IsRun(run, AnyCalls)
  {
    forall t | 0 <= t < |run| - 1 ensures Next(run[t], run[t + 1], AnyCalls) {
      assert Permits(AnyCalls, acts[t]) && Enabled(run[t], acts[t]) && run[t + 1] == Apply(run[t], acts[t]);
    }
  }

  lemma OneStep(s: Cluster, a: Step, i: nat)
    requires Enabled(s, a) && i < |s.ls|
    ensures var s' := Apply(s, a);
      && |s'.ls| == |s.ls|
      && (SwapsAt(a, i) || (s.ls[i].local == 0 && !CountsAt(a, i)) ==> s'.ls[i].local == 0)
  {
  }

  lemma {:induction false} StaysEmpty(run: seq<Cluster>, acts: seq<Step>, i: nat, t: nat, n: nat)
    requires IsTrace(run, acts) && LastSwap(acts, i, t) && t < n < |run| && i < |run[0].ls|
    ensures i < |run[n].ls| && run[n].ls[i].local == 0
  {
    SameGateways(run, acts, n - 1);
    OneStep(run[n - 1], acts[n - 1], i);
    if t + 1 < n { StaysEmpty(run, acts, i, t, n - 1); }
  }

  lemma {:induction false} SameGateways(run: seq<Cluster>, acts: seq<Step>, n: nat)
    requires IsTrace(run, acts) && n < |run|
    ensures |run[n].ls| == |run[0].ls|
  {
    if n > 0 {
      SameGateways(run, acts, n - 1);
      assert Enabled(run[n - 1], acts[n - 1]) && run[n - 1 + 1] == Apply(run[n - 1], acts[n - 1]);
      OneStep(run[n - 1], acts[n - 1], acts[n - 1].i);
    }
  }

  /** The t-th step loses units. */
  predicate Loses(run: seq<Cluster>, acts: seq<Step>, t: nat)
    requires t < |acts| && t < |run|
  {
    acts[t].Drop? && acts[t].i < |run[t].ls| && run[t].ls[acts[t].i].phase.Swapped?
    && run[t].ls[acts[t].i].phase.delta > 0
  }

  predicate NoPushFailed(run: seq<Cluster>, acts: seq<Step>)
    requires |run| > |acts|
  {
    forall t :: 0 <= t < |acts| ==> !Loses(run, acts, t)
  }

  /** Whether a step keeps it so that nothing is lost. */
  lemma StepLoses(s: Cluster, a: Step)
    requires Enabled(s, a)
    ensures NothingLost(Apply(s, a)) <==> NothingLost(s) && !(a.Drop? && s.ls[a.i].phase.delta > 0)
  {
    var s', i := Apply(s, a), a.i;
    OneGateway(s, a);
    assert s.ls[i] in s.ls && s'.ls[i] in s'.ls;
    forall l | l in s.ls ensures l == s.ls[i] || l in s'.ls {
      var j :| 0 <= j < |s.ls| && s.ls[j] == l;
      if j != i { assert s'.ls[j] == l; }
    }
    hide Apply, Enabled;
  }

  lemma OneGateway(s: Cluster, a: Step)
    requires Enabled(s, a)
    ensures var s' := Apply(s, a);
      && s'.ls == s.ls[a.i := s'.ls[a.i]]
      && s'.ls[a.i].lost == s.ls[a.i].lost + if a.Drop? then s.ls[a.i].phase.delta else 0
  {
  }

  lemma {:induction false} LossesAreDrops(run: seq<Cluster>, acts: seq<Step>, n: nat)
    requires IsTrace(run, acts) && n <= |acts|
    ensures NothingLost(run[n]) <==> forall t :: 0 <= t < n ==> !Loses(run, acts, t)
  {
    if n > 0 {
      LossesAreDrops(run, acts, n - 1);
      assert Enabled(run[n - 1], acts[n - 1]) && run[n - 1 + 1] == Apply(run[n - 1], acts[n - 1]);
      StepLoses(run[n - 1], acts[n - 1]);
      assert Loses(run, acts, n - 1) <==> acts[n - 1].Drop? && run[n - 1].ls[acts[n - 1].i].phase.delta > 0;
      hide NothingLost, Apply, Enabled, Loses;
    }
  }

  /** After Close with no later calls: if every gateway has swapped its counter once
      more after its last call, in whatever order and whatever else went on, and no
      flush is under way, then every unit that was ever counted is in the store, if and
      only if no push failed that had something to push. */
  lemma CloseStoresEverything(run: seq<Cluster>, acts: seq<Step>, swaps: seq<nat>)
    requires IsTrace(run, acts) && |swaps| == |run[0].ls|
    requires forall i :: 0 <= i < |swaps| ==> LastSwap(acts, i, swaps[i])
    requires forall l :: l in run[|acts|].ls ==> l.phase.Idle?
    ensures var s := run[|acts|]; Sum(s.usage, s.usage.Keys) == Total(s.ls, Counted) <==> NoPushFailed(run, acts)
  {
    LossesAreDrops(run, acts, |acts|);
    TraceIsRun(run, acts);
    SameGateways(run, acts, |acts|);
    forall l | l in run[|acts|].ls ensures l.local == 0 {
      var i :| 0 <= i < |run[|acts|].ls| && run[|acts|].ls[i] == l;
      StaysEmpty(run, acts, i, swaps[i], |acts|);
    }
    ClosedMeansStored(run, AnyCalls, |acts|);
  }

  // --- The overshoot bound ---

  /** What a limiter may have pushed, by phase.  `cap` bounds every bucket:
      twice the limit for the split flush, the limit for the atomic one. */
  ghost predicate Tame(l: Limiter, limit: int, cap: int) {
    && l.local <= limit && l.remote >= 0
    && (forall b: nat :: 0 <= At(l.pushed, b) <= cap)
    && (forall b: nat :: b > l.clock ==> At(l.pushed, b) == 0)
    && var now := At(l.pushed, l.clock);
       match l.phase
       case Idle => now <= l.remote && (l.local > 0 ==> l.local + now <= cap)
       case Swapped(b, d) =>
         b == l.clock && d <= limit && d + now <= cap && now <= l.remote &&
             (l.local > 0 ==> l.local + l.remote <= limit)
       case Stored(b) =>
         b == l.clock && now <= l.remote + limit && (l.local > 0 ==> l.local + l.remote <= limit)
  }

  /** The table is the sum of what the gateways pushed. */
  ghost predicate Agrees(s: Cluster) {
    && (forall b: nat :: At(s.usage, b) == Total(s.ls, Pushed(b)))
    && (forall b :: b in s.usage ==> s.usage[b] >= 0)
  }

  ghost predicate AllTame(s: Cluster, cap: int) { forall l :: l in s.ls ==> Tame(l, s.limit, cap) }

  ghost predicate Within(s: Cluster, cap: int) {
    s.limit > 0 && Agrees(s) && AllTame(s, cap)
  }

  lemma PutTame(s: Cluster, i: nat, l: Limiter, cap: int)
    requires AllTame(s, cap) && i < |s.ls| && Tame(l, s.limit, cap)
    ensures AllTame(s.(ls := s.ls[i := l]), cap)
  {
    hide Tame;
    forall x | x in s.ls[i := l] ensures Tame(x, s.limit, cap) {}
  }

  lemma SamePushedAgrees(s: Cluster, i: nat, l: Limiter)
    requires Agrees(s) && i < |s.ls| && l.pushed == s.ls[i].pushed
    ensures Agrees(s.(ls := s.ls[i := l]))
  {
    forall b: nat ensures Total(s.ls[i := l], Pushed(b)) == Total(s.ls, Pushed(b)) {
      TotalUpdate(s.ls, i, l, Pushed(b));
    }
  }

  lemma AllowWithin(s: Cluster, i: nat, cap: int)
    requires Within(s, cap) && i < |s.ls| && Admits(s.limit, s.ls[i]) && cap >= s.limit
    ensures Within(s.(ls := s.ls[i := Count(s.ls[i], 1)]), cap)
  {
    assert s.ls[i] in s.ls;
    PutTame(s, i, Count(s.ls[i], 1), cap);
    SamePushedAgrees(s, i, Count(s.ls[i], 1));
  }

  lemma TameSwap(l: Limiter, now: nat, limit: int, cap: int)
    requires Tame(l, limit, cap) && l.phase.Idle? && now >= l.clock && cap >= limit
    ensures Tame(SwapOut(l, now), limit, cap)
  {
    assert At(l.pushed, now) <= if now > l.clock then 0 else cap;
  }

  lemma TamePush(l: Limiter, b: nat, d: nat, limit: int, cap: int)
    requires Tame(l, limit, cap) && l.phase == Swapped(b, d)
    ensures Tame(l.(phase := Stored(b), pushed := Add(l.pushed, b, d)), limit, cap)
    ensures d == 0 ==> Tame(l.(phase := Stored(b)), limit, cap)
  {
    var l' := l.(phase := Stored(b), pushed := Add(l.pushed, b, d));
    assert At(l'.pushed, b) == At(l.pushed, b) + d;
    forall k: nat | k != b ensures At(l'.pushed, k) == At(l.pushed, k) {}
    assert 0 <= At(l.pushed, b);
  }

  lemma SwapWithin(s: Cluster, i: nat, now: nat, cap: int)
    requires Within(s, cap) && Enabled(s, Swap(i, now)) && cap >= s.limit
    ensures Within(s.(ls := s.ls[i := SwapOut(s.ls[i], now)]), cap)
  {
    assert s.ls[i] in s.ls;
    TameSwap(s.ls[i], now, s.limit, cap);
    PutTame(s, i, SwapOut(s.ls[i], now), cap);
    SamePushedAgrees(s, i, SwapOut(s.ls[i], now));
  }

  lemma PushWithin(s: Cluster, i: nat, cap: int)
    requires Within(s, cap) && Enabled(s, Push(i))
    ensures Within(PushOut(s, i), cap)
  {
    var l, l' := s.ls[i], PushOut(s, i).ls[i];
    assert l in s.ls;
    TamePush(l, l.phase.bucket, l.phase.delta, s.limit, cap);
    PutTame(s, i, l', cap);
    forall b: nat
      ensures At(PushOut(s, i).usage, b) == Total(PushOut(s, i).ls, Pushed(b))
    {
      TotalUpdate(s.ls, i, l', Pushed(b));
    }
  }

  /** A refresh in a minute into which nobody has pushed starts from nothing. */
  lemma FreshMinute(s: Cluster, i: nat)
    requires i < |s.ls| && s.ls[i].phase.Stored? && forall b :: b in s.usage ==> b < s.ls[i].phase.bucket
    ensures ReadBack(s, i).ls[i].remote == 0
  {
    SinceNone(s.usage, s.ls[i].phase.bucket);
  }

  /** What was pushed into earlier minutes does not count in a refresh. */
  lemma EarlierMinutesDoNotCount(s: Cluster, i: nat, b: nat, d: int)
    requires i < |s.ls| && s.ls[i].phase.Stored?
    ensures ReadBack(s.(usage := Add(s.usage, b, d)), i).ls[i].remote ==
      ReadBack(s, i).ls[i].remote + if b < s.ls[i].phase.bucket then 0 else d
  {
    SinceAdd(s.usage, b, d, s.ls[i].phase.bucket);
  }

  lemma TameDrop(l: Limiter, limit: int, cap: int)
    requires Tame(l, limit, cap) && l.phase.Swapped? && limit > 0
    ensures Tame(DropOut(l), limit, cap)
  {
  }

  lemma DropWithin(s: Cluster, i: nat, cap: int)
    requires Within(s, cap) && Enabled(s, Drop(i))
    ensures Within(s.(ls := s.ls[i := DropOut(s.ls[i])]), cap)
  {
    assert s.ls[i] in s.ls;
    TameDrop(s.ls[i], s.limit, cap);
    PutTame(s, i, DropOut(s.ls[i]), cap);
    SamePushedAgrees(s, i, DropOut(s.ls[i]));
  }

  lemma RefreshWithin(s: Cluster, i: nat, cap: int)
    requires Within(s, cap) && Enabled(s, Refresh(i)) && cap >= 2 * s.limit
    ensures Within(ReadBack(s, i), cap)
  {
    var l, b := s.ls[i], s.ls[i].phase.bucket;
    assert l in s.ls;
    TotalCovers(s.ls, i, Pushed(b));
    SinceCoversBucket(s.usage, b);
    PutTame(s, i, ReadBack(s, i).ls[i], cap);
    SamePushedAgrees(s, i, ReadBack(s, i).ls[i]);
  }

  lemma SplitStepWithin(s: Cluster, a: Step)
    requires Within(s, 2 * s.limit) && Enabled(s, a) && Permits(SplitFlush, a)
    ensures Within(Apply(s, a), 2 * s.limit) && Apply(s, a).limit == s.limit && |Apply(s, a).ls| == |s.ls|
  {
    hide Within;
    assert s.limit > 0 by { WithinLimit(s, 2 * s.limit); }
    match a
    case Allow(i) => if Admits(s.limit, s.ls[i]) { AllowWithin(s, i, 2 * s.limit); }
    case Swap(i, now) => SwapWithin(s, i, now, 2 * s.limit);
    case Push(i) => PushWithin(s, i, 2 * s.limit);
    case Drop(i) => DropWithin(s, i, 2 * s.limit);
    case Refresh(i) => RefreshWithin(s, i, 2 * s.limit);
  }

  lemma WithinLimit(s: Cluster, cap: int)
    requires Within(s, cap)
    ensures s.limit > 0
  {
  }

  /** The atomic flush leaves no gap between swap and refresh, so a limiter
      never has more than the limit between its counter and its bucket. */
  ghost predicate Strict(s: Cluster) {
    forall l :: l in s.ls ==> l.phase.Idle? && (l.local > 0 ==> l.local + l.remote <= s.limit)
  }

  lemma WholeStepWithin(s: Cluster, a: Step)
    requires Within(s, s.limit) && Strict(s) && Enabled(s, a) && Permits(WholeFlush, a)
    ensures Within(Apply(s, a), s.limit) && Strict(Apply(s, a))
    ensures Apply(s, a).limit == s.limit && |Apply(s, a).ls| == |s.ls|
  {
    var i, s' := a.i, Apply(s, a);
    assert s.ls[i] in s.ls;
    forall l | l in s'.ls ensures l == s'.ls[i] || l in s.ls {}
    if a.Flush? {
      FlushWithin(s, i, a.now);
    } else if Admits(s.limit, s.ls[i]) {
      AllowWithin(s, i, s.limit);
    }
  }

  lemma FlushWithin(s: Cluster, i: nat, now: nat)
    requires Within(s, s.limit) && Strict(s) && Enabled(s, Flush(i, now))
    ensures Within(Apply(s, Flush(i, now)), s.limit)
  {
    assert s.ls[i] in s.ls;
    var s1 := s.(ls := s.ls[i := SwapOut(s.ls[i], now)]);
    SwapWithin(s, i, now, s.limit);
    PushWithin(s1, i, s.limit);
    var s2 := PushOut(s1, i);
    var l := s2.ls[i];
    assert l in s2.ls && l.local == 0;
    TotalCovers(s2.ls, i, Pushed(now));
    SinceCoversBucket(s2.usage, now);
    PutTame(s2, i, ReadBack(s2, i).ls[i], s.limit);
    SamePushedAgrees(s2, i, ReadBack(s2, i).ls[i]);
  }

  lemma InitWithin(s: Cluster)
    requires Init(s) && s.limit > 0
    ensures Within(s, s.limit) && Within(s, 2 * s.limit) && Strict(s)
  {
    forall b: nat ensures Total(s.ls, Pushed(b)) == 0 { TotalZero(s.ls, Pushed(b)); }
  }

  lemma {:induction false} RunWithin(run: seq<Cluster>, mode: Mode, n: nat)
    requires IsRun(run, mode) && n < |run| && run[0].limit > 0 && !mode.AnyCalls?
    ensures run[n].limit == run[0].limit && |run[n].ls| == |run[0].ls|
    ensures mode.SplitFlush? ==> Within(run[n], 2 * run[0].limit)
    ensures mode.WholeFlush? ==> Within(run[n], run[0].limit) && Strict(run[n])
  {
    hide Within, Strict, Apply;
    if n == 0 {
      InitWithin(run[0]);
    } else {
      RunWithin(run, mode, n - 1);
      assert Next(run[n - 1], run[n - 1 + 1], mode);
      var a :| Permits(mode, a) && Enabled(run[n - 1], a) && run[n] == Apply(run[n - 1], a);
      if mode.SplitFlush? { SplitStepWithin(run[n - 1], a); } else { WholeStepWithin(run[n - 1], a); }
    }
  }

  /** Overshoot bound.  With a fixed limit and atomic Allow decisions, one
      gateway adds at most the limit to any minute if its flush is one step,
      and at most twice the limit if the flush is three steps, so N gateways
      together stay below N or 2 * N limits, across minute rollovers too. */
  lemma OvershootBound(run: seq<Cluster>, mode: Mode, n: nat, b: nat)
    requires IsRun(run, mode) && n < |run| && run[0].limit > 0 && !mode.AnyCalls?
    ensures var cap := if mode.SplitFlush? then 2 * run[0].limit else run[0].limit;
            && (forall l :: l in run[n].ls ==> At(l.pushed, b) <= cap)
            && At(run[n].usage, b) <= |run[0].ls| * cap
  {
    RunWithin(run, mode, n);
    var cap := if mode.SplitFlush? then 2 * run[0].limit else run[0].limit;
    forall l | l in run[n].ls ensures Value(l, Pushed(b)) <= cap { assert Tame(l, run[n].limit, cap); }
    TotalBound(run[n].ls, Pushed(b), cap);
  }

  // --- The bound is sharp ---

  lemma {:induction false} AllowMany(run: seq<Cluster>, k: nat) returns (longer: seq<Cluster>)
    requires IsRun(run, SplitFlush)
    requires var s := run[|run| - 1]; |s.ls| == 1 && s.ls[0].remote + s.ls[0].local + k <= s.limit
    ensures IsRun(longer, SplitFlush) && longer[0] == run[0]
    ensures var s := run[|run| - 1]; longer[|longer| - 1] == s.(ls := [Count(s.ls[0], k)])
    decreases k
  {
    if k == 0 {
      longer := run;
    } else {
      longer := Extend(run, SplitFlush, Allow(0));
      longer := AllowMany(longer, k - 1);
    }
  }

  /** One gateway whose calls arrive between swap and refresh reaches the bound. */
  lemma OvershootIsReached(limit: nat) returns (run: seq<Cluster>)
    requires limit > 0
    ensures IsRun(run, SplitFlush) && run[0].limit == limit && |run[0].ls| == 1
    ensures At(run[|run| - 1].usage, 0) == 2 * limit
  {
    run := [Cluster(limit, [Limiter(0, 0, Idle, 0, map[], 0, 0)], map[])];
    run := AllowMany(run, limit);
    run := Extend(run, SplitFlush, Swap(0, 0));
    run := AllowMany(run, limit);
    run := Extend(run, SplitFlush, Push(0));
    run := Extend(run, SplitFlush, Refresh(0));
    run := Extend(run, SplitFlush, Swap(0, 0));
    run := Extend(run, SplitFlush, Push(0));
  }
}
