/** The per-function counters survive reaping, and Stats reads them without
    counting anything twice. */
module PoolCounters {
  import opened Filtering
  import opened PoolModel
  import opened PoolSafety

  function Look(tally: map<Inst, Tally>, m: Meter, x: Inst): int {
    if x in tally then tally[x].At(m) else 0
  }

  /** The sum of one counter over the given instances. */
  function Total(tally: map<Inst, Tally>, m: Meter, xs: seq<Inst>): int {
    if xs == [] then 0 else Total(tally, m, xs[..|xs| - 1]) + Look(tally, m, xs[|xs| - 1])
  }

  lemma TotalSnoc(tally: map<Inst, Tally>, m: Meter, xs: seq<Inst>, x: Inst)
    ensures Total(tally, m, xs + [x]) == Total(tally, m, xs) + Look(tally, m, x)
  {
    assert (xs + [x])[..|xs|] == xs;
  }

  lemma {:induction false} TotalCons(tally: map<Inst, Tally>, m: Meter, x: Inst, xs: seq<Inst>)
    ensures Total(tally, m, [x] + xs) == Look(tally, m, x) + Total(tally, m, xs)
  {
    if xs == [] {
      assert [x] + xs == [] + [x];
      TotalSnoc(tally, m, [], x);
    } else {
      var front, y := xs[..|xs| - 1], xs[|xs| - 1];
      TotalCons(tally, m, x, front);
      assert [x] + xs == ([x] + front) + [y];
      TotalSnoc(tally, m, [x] + front, y);
    }
  }

  lemma {:induction false} TotalSame(tally: map<Inst, Tally>, tally': map<Inst, Tally>, m: Meter, xs: seq<Inst>)
    requires forall x :: x in xs ==> Look(tally, m, x) == Look(tally', m, x)
    ensures Total(tally, m, xs) == Total(tally', m, xs)
  {
    if xs != [] { TotalSame(tally, tally', m, xs[..|xs| - 1]); }
  }

  /** tally' differs from tally only in that x has d more on the meter. */
  ghost predicate Adds(tally: map<Inst, Tally>, tally': map<Inst, Tally>, m: Meter, x: Inst, d: int) {
    && Look(tally', m, x) == Look(tally, m, x) + d
    && forall y :: y != x ==> Look(tally', m, y) == Look(tally, m, y)
  }

  /** Adding to one counter adds to the total once, if the instance is listed. */
  lemma {:induction false} TotalAdds(tally: map<Inst, Tally>, tally': map<Inst, Tally>, m: Meter, x: Inst, d: int,
      xs: seq<Inst>)
    requires Distinct(xs) && Adds(tally, tally', m, x, d)
    ensures Total(tally', m, xs) == Total(tally, m, xs) + if x in xs then d else 0
  {
    if xs != [] {
      var front, y := xs[..|xs| - 1], xs[|xs| - 1];
      assert xs == front + [y];
      if y == x {
        TotalSame(tally, tally', m, front);
      } else {
        TotalAdds(tally, tally', m, x, d, front);
      }
    }
  }

  lemma {:induction false} TotalSplits(tally: map<Inst, Tally>, m: Meter, xs: seq<Inst>, dead: set<Inst>)
    ensures Total(tally, m, xs) == Total(tally, m, Without(xs, dead)) + Total(tally, m, Only(xs, dead))
  {
    if xs != [] {
      var front, x := xs[..|xs| - 1], xs[|xs| - 1];
      TotalSplits(tally, m, front, dead);
      assert Without(front, dead) + [] == Without(front, dead) && Only(front, dead) + [] == Only(front, dead);
      if x in dead {
        TotalSnoc(tally, m, Only(front, dead), x);
      } else {
        TotalSnoc(tally, m, Without(front, dead), x);
      }
    }
  }

  // --- The invariant ---

  function Victims(s: Pool): seq<Inst> { if s.reaper.Reaping? then s.reaper.victims else [] }

  /** Until closeAll, whoever holds an instance holds one of the list. */
  ghost predicate HeldListed(s: Pool) {
    !s.drained ==> forall r :: Holds(s, r) ==> s.pcs[r].inst in s.instances
  }

  /** The books balance on every meter.  In the middle of a reap pass the victims
      seen so far are in both columns, which is why Stats has to stay out. */
  ghost predicate Balanced(s: Pool, m: Meter) {
    s.lifetime.At(m) + Total(s.tally, m, s.instances) == s.answered.At(m) + Total(s.tally, m, Victims(s))
  }

  ghost predicate Books(s: Pool) { !s.drained ==> forall m :: Balanced(s, m) }

  /** What a report in progress will have summed up if nothing more happens. */
  function Expected(s: Pool, m: Meter): int
    requires s.reporter.Reporting? && s.reporter.next <= |s.reporter.snap|
  {
    s.reporter.sum.At(m) + Total(s.tally, m, s.reporter.snap[s.reporter.next..])
  }

  /** A report in progress counts no more than was answered by now, and no less
      than was answered when it took its snapshot. */
  ghost predicate ReportSound(s: Pool) {
    s.reporter.Reporting? ==>
      && s.reporter.next <= |s.reporter.snap| && Distinct(s.reporter.snap)
      && forall m: Meter :: m != Nanos ==> s.reporter.floor.At(m) <= Expected(s, m) <= s.answered.At(m)
  }

  ghost predicate ReportsGrow(s: Pool) {
    && (forall i, j :: 0 <= i < j < |s.reports| ==> s.reports[i].invokes <= s.reports[j].invokes)
    && (forall i :: 0 <= i < |s.reports| ==> s.reports[i].invokes <= s.answered.invokes)
    && (s.reporter.Reporting? ==>
          forall i :: 0 <= i < |s.reports| ==> s.reports[i].invokes <= s.reporter.floor.invokes)
  }

  ghost predicate Accounts(s: Pool) { HeldListed(s) && Books(s) && ReportSound(s) && ReportsGrow(s) }

  // --- Preservation ---

  lemma ListedKept(s: Pool, a: Step)
    requires Inv(s) && HeldListed(s) && Enabled(s, a)
    ensures HeldListed(Apply(s, a))
  {
    hide Apply, Enabled, Mutex, Capacity, Closing;
    Frame(s, a);
    FrameList(s, a);
    FrameLocks(s, a);
    if a.ReapEnd? { ListedReap(s); }
    else if !Service(a) { ListedMoves(s, a); }
  }

  lemma ListedReap(s: Pool)
    requires Roster(s) && Pass(s) && Holders(s) && HeldListed(s) && Enabled(s, ReapEnd)
    ensures HeldListed(Apply(s, ReapEnd))
  {
    var s' := Apply(s, ReapEnd);
    ReapEndChange(s);
    PassEnds(s);
    assert forall r :: Holds(s', r) ==> Holds(s, r) && s'.pcs[r] == s.pcs[r];
    hide Apply, Enabled, Pass, Without, Only;
    forall r | Holds(s', r) && !s.drained
      ensures s'.pcs[r].inst in s'.instances
    {
      assert s.pcs[r].inst in Elements(s.instances);
    }
  }

  lemma ListedMoves(s: Pool, a: Step)
    requires HeldListed(s) && Enabled(s, a) && !Service(a) && !a.ReapEnd?
    ensures HeldListed(Apply(s, a))
  {
    hide Apply, Enabled, HeldListed;
    if Gets(a) { ListedGet(s, a); } else if Seeks(a) { ListedSeek(s, a); } else { ListedLeave(s, a); }
  }

  lemma ListedSeek(s: Pool, a: Step)
    requires HeldListed(s) && Enabled(s, a) && (a.Arrive? || a.Lock? || a.Decide?)
    ensures HeldListed(Apply(s, a))
  {
    var s' := Apply(s, a);
    assert forall r :: Holds(s', r) ==> Holds(s, r) && s'.pcs[r].inst == s.pcs[r].inst;
  }

  lemma ListedGet(s: Pool, a: Step)
    requires HeldListed(s) && Enabled(s, a) && Gets(a)
    ensures HeldListed(Apply(s, a))
  {
    var s' := Apply(s, a);
    assert forall x :: x in s.instances ==> x in s'.instances;
    assert forall r :: r != a.r && Holds(s', r) ==> Holds(s, r) && s'.pcs[r].inst == s.pcs[r].inst;
  }

  lemma ListedLeave(s: Pool, a: Step)
    requires HeldListed(s) && Enabled(s, a) && Leaves(a)
    ensures HeldListed(Apply(s, a))
  {
    var s' := Apply(s, a);
    assert forall r :: Holds(s', r) ==> Holds(s, r) && s'.pcs[r].inst == s.pcs[r].inst;
  }

  function Added(a: Step): Tally
    requires Counts(a)
  {
    match a
    case CountInvoke(_) => Tally(1, 0, 0)
    case CountNanos(_, nanos) => Tally(0, 0, nanos)
    case CountError(_) => Tally(0, 1, 0)
  }

  /** A counter update adds the same amount to the instance and to the history. */
  lemma CountAdds(s: Pool, a: Step, m: Meter)
    requires Enabled(s, a) && Counts(a)
    ensures var s' := Apply(s, a); var d := Added(a).At(m);
      && Adds(s.tally, s'.tally, m, s.pcs[a.r].inst, d)
      && s'.answered.At(m) == s.answered.At(m) + d
      && (m != Nanos ==> d >= 0)
  {
    hide Apply, Adds, Added, Zero, Tally.Plus, Tally.At;
    CountIs(s, a);
    PlusAdds(s.tally, s.pcs[a.r].inst, Counters(s, s.pcs[a.r].inst), Added(a), m);
    PlusAt(s.answered, Added(a), m);
  }

  lemma PlusAt(t: Tally, d: Tally, m: Meter)
    ensures t.Plus(d).At(m) == t.At(m) + d.At(m)
    ensures m != Nanos ==> d.At(m) >= 0
  {
  }

  lemma CountIs(s: Pool, a: Step)
    requires Enabled(s, a) && Counts(a)
    ensures var s', x := Apply(s, a), s.pcs[a.r].inst;
      s'.tally == s.tally[x := Counters(s, x).Plus(Added(a))] && s'.answered == s.answered.Plus(Added(a))
  {
  }

  lemma PlusAdds(tally: map<Inst, Tally>, x: Inst, t: Tally, d: Tally, m: Meter)
    requires t == if x in tally then tally[x] else Zero()
    ensures Adds(tally, tally[x := t.Plus(d)], m, x, d.At(m))
  {
    assert Zero().At(m) == 0;
  }

  lemma VictimsDistinct(s: Pool)
    requires Roster(s) && Pass(s)
    ensures Distinct(Victims(s))
    ensures s.reaper.Reaping? ==> Elements(Victims(s)) <= Elements(s.instances)
  {
    if s.reaper.Reaping? {
      DistinctFilters(s.instances[..s.reaper.next], Elements(s.reaper.victims));
      PassInside(s);
    }
  }

  lemma BooksKept(s: Pool, a: Step)
    requires Inv(s) && HeldListed(s) && Books(s) && Enabled(s, a)
    ensures Books(Apply(s, a))
  {
    hide Apply, Enabled, Balanced, HeldListed, Roster, Pass, Capacity, Closing, Holders, Mutex;
    Frame(s, a);
    if !s.drained && !a.Drain? {
      forall m ensures Balanced(Apply(s, a), m) {
        if Counts(a) { BooksCount(s, a, m); }
        else if a.SpawnOk? { BooksSpawn(s, a.r, a.x, m); }
        else if a.ReapStart? { BooksReapStart(s, m); }
        else if a.ReapTry? { BooksTry(s, a.expired, m); }
        else if a.ReapEnd? { BooksReaped(s, m); }
        else { BooksQuiet(s, a, m); }
      }
    }
  }

  lemma {:induction false} BooksQuiet(s: Pool, a: Step, m: Meter)
    requires Balanced(s, m) && Enabled(s, a)
    requires !Counts(a) && !a.SpawnOk? && !a.ReapStart? && !a.ReapTry? && !a.ReapEnd? && !a.Drain?
    ensures Balanced(Apply(s, a), m)
  {
    hide Apply, Enabled, Total;
    FrameList(s, a);
    FrameServices(s, a);
  }

  lemma BooksCount(s: Pool, a: Step, m: Meter)
    requires Inv(s) && HeldListed(s) && Balanced(s, m) && !s.drained && Enabled(s, a) && Counts(a)
    ensures Balanced(Apply(s, a), m)
  {
    hide Apply, Total, Adds, Mutex, Capacity, Closing;
    var s', x, d := Apply(s, a), s.pcs[a.r].inst, Added(a).At(m);
    FrameList(s, a);
    FrameServices(s, a);
    CountAdds(s, a, m);
    VictimsDistinct(s);
    assert Holds(s, a.r);
    TotalAdds(s.tally, s'.tally, m, x, d, s.instances);
    TotalAdds(s.tally, s'.tally, m, x, d, Victims(s));
  }

  lemma BooksSpawn(s: Pool, r: Request, x: Inst, m: Meter)
    requires Mutex(s) && Balanced(s, m) && Enabled(s, SpawnOk(r, x))
    ensures Balanced(Apply(s, SpawnOk(r, x)), m)
  {
    var tally' := s.tally[x := Zero()];
    assert Victims(s) == [];
    TotalSame(s.tally, tally', m, s.instances);
    TotalSnoc(tally', m, s.instances, x);
  }

  lemma BooksTry(s: Pool, expired: bool, m: Meter)
    requires Balanced(s, m) && Enabled(s, ReapTry(expired))
    ensures Balanced(Apply(s, ReapTry(expired)), m)
  {
    hide Total;
    TotalSnoc(s.tally, m, s.reaper.victims, s.instances[s.reaper.next]);
  }

  lemma BooksReaped(s: Pool, m: Meter)
    requires Roster(s) && Pass(s) && Balanced(s, m) && Enabled(s, ReapEnd)
    ensures Balanced(Apply(s, ReapEnd), m)
  {
    hide Apply, Enabled, Without, Only, Roster, Pass, Balanced, Total;
    ReapEndChange(s);
    PassIsWhole(s);
    VictimsLeave(s, Apply(s, ReapEnd), m);
  }

  lemma VictimsLeave(s: Pool, s': Pool, m: Meter)
    requires Balanced(s, m) && s.reaper.Reaping? && s'.reaper.Resting?
    requires s.reaper.victims == Only(s.instances, Elements(s.reaper.victims))
    requires s'.instances == Without(s.instances, Elements(s.reaper.victims))
    requires s'.tally == s.tally && s'.lifetime == s.lifetime && s'.answered == s.answered
    ensures Balanced(s', m)
  {
    assert Total(s.tally, m, []) == 0;
    hide Total, Without, Only, Elements, Tally.At;
    TotalSplits(s.tally, m, s.instances, Elements(s.reaper.victims));
  }

  lemma BooksReapStart(s: Pool, m: Meter)
    requires Balanced(s, m) && Enabled(s, ReapStart)
    ensures Balanced(Apply(s, ReapStart), m)
  {
  }

  lemma ReportKept(s: Pool, a: Step)
    requires Mutex(s) && Roster(s) && Books(s) && ReportSound(s) && Enabled(s, a)
    ensures ReportSound(Apply(s, a))
  {
    hide Apply, Enabled, Roster, Books, Total;
    FrameServices(s, a);
    if Counts(a) { ReportCount(s, a); }
    else if a.SpawnOk? { ReportSpawn(s, a.r, a.x); }
    else if a.ReportStart? { ReportStarts(s); }
    else if a.ReportRead? { ReportReads(s); }
    else if a.ReportEnd? { ReportEnds(s); }
  }

  lemma ReportCount(s: Pool, a: Step)
    requires ReportSound(s) && Enabled(s, a) && Counts(a)
    ensures ReportSound(Apply(s, a))
  {
    hide Apply, Total, Adds;
    FrameServices(s, a);
    if s.reporter.Reporting? {
      forall m: Meter | m != Nanos
        ensures s.reporter.floor.At(m) <= Expected(Apply(s, a), m) <= Apply(s, a).answered.At(m)
      {
        CountAdds(s, a, m);
        TotalAdds(s.tally, Apply(s, a).tally, m, s.pcs[a.r].inst, Added(a).At(m), s.reporter.snap[s.reporter.next..]);
      }
    }
  }

  lemma ReportSpawn(s: Pool, r: Request, x: Inst)
    requires ReportSound(s) && Enabled(s, SpawnOk(r, x))
    ensures ReportSound(Apply(s, SpawnOk(r, x)))
  {
    var s' := Apply(s, SpawnOk(r, x));
    if s.reporter.Reporting? {
      forall m ensures Expected(s', m) == Expected(s, m) {
        TotalSame(s.tally, s'.tally, m, s.reporter.snap[s.reporter.next..]);
      }
    }
  }

  lemma ReportStarts(s: Pool)
    requires Mutex(s) && Roster(s) && Books(s) && Enabled(s, ReportStart)
    ensures ReportSound(Apply(s, ReportStart))
  {
    assert s.instances[0..] == s.instances;
    forall m: Meter
      ensures Expected(Apply(s, ReportStart), m) == s.answered.At(m)
    {
      assert Balanced(s, m);
    }
  }

  lemma ReportReads(s: Pool)
    requires ReportSound(s) && Enabled(s, ReportRead)
    ensures ReportSound(Apply(s, ReportRead))
  {
    hide Total;
    var p, s' := s.reporter, Apply(s, ReportRead);
    assert p.snap[p.next..] == [p.snap[p.next]] + p.snap[p.next + 1..];
    forall m ensures Expected(s', m) == Expected(s, m) {
      TotalCons(s.tally, m, p.snap[p.next], p.snap[p.next + 1..]);
    }
  }

  lemma ReportEnds(s: Pool)
    requires Enabled(s, ReportEnd)
    ensures ReportSound(Apply(s, ReportEnd))
  {
  }

  lemma ReportsKept(s: Pool, a: Step)
    requires ReportSound(s) && ReportsGrow(s) && Enabled(s, a)
    ensures ReportsGrow(Apply(s, a))
  {
    hide Apply, Enabled, ReportSound;
    FrameServices(s, a);
    if Counts(a) { AnsweredGrows(s, a); }
    else if a.ReportStart? || a.ReportRead? { ReportsStay(s, a); }
    else if a.ReportEnd? { ReportsAppend(s); }
  }

  lemma AnsweredGrows(s: Pool, a: Step)
    requires Enabled(s, a) && Counts(a)
    ensures s.answered.invokes <= Apply(s, a).answered.invokes
    ensures Apply(s, a).reports == s.reports && Apply(s, a).reporter == s.reporter
  {
  }

  lemma ReportsStay(s: Pool, a: Step)
    requires ReportsGrow(s) && Enabled(s, a) && (a.ReportStart? || a.ReportRead?)
    ensures ReportsGrow(Apply(s, a))
  {
  }

  /** What the finished sum is worth. */
  lemma SumAtEnd(s: Pool)
    requires ReportSound(s) && Enabled(s, ReportEnd)
    ensures s.reporter.floor.invokes <= s.reporter.sum.invokes <= s.answered.invokes
    ensures s.reporter.floor.errors <= s.reporter.sum.errors <= s.answered.errors
  {
    assert s.reporter.snap[s.reporter.next..] == [];
    assert Expected(s, Invokes) == s.reporter.sum.invokes && Expected(s, Errors) == s.reporter.sum.errors;
    assert s.reporter.floor.At(Invokes) == s.reporter.floor.invokes;
    assert s.reporter.floor.At(Errors) == s.reporter.floor.errors;
  }

  lemma ReportsAppend(s: Pool)
    requires ReportSound(s) && ReportsGrow(s) && Enabled(s, ReportEnd)
    ensures ReportsGrow(Apply(s, ReportEnd))
  {
    SumAtEnd(s);
  }

  lemma NextKeepsAccounts(s: Pool, s': Pool)
    requires Inv(s) && Accounts(s) && Next(s, s')
    ensures Accounts(s')
  {
    hide Apply, HeldListed, Books, ReportSound, ReportsGrow, Mutex, Roster, Pass, Holders, Capacity, Closing;
    var a :| Enabled(s, a) && s' == Apply(s, a);
    ListedKept(s, a);
    BooksKept(s, a);
    ReportKept(s, a);
    ReportsKept(s, a);
  }

  lemma InitAccounts(s: Pool)
    requires Init(s)
    ensures Accounts(s)
  {
  }

  lemma {:induction false} RunKeepsAccounts(run: seq<Pool>, n: nat)
    requires IsRun(run) && n < |run|
    ensures Accounts(run[n])
  {
    hide Next, Accounts, Inv;
    if n == 0 {
      InitAccounts(run[0]);
    } else {
      RunKeepsInv(run, n - 1);
      RunKeepsAccounts(run, n - 1);
      NextKeepsAccounts(run[n - 1], run[n - 1 + 1]);
    }
  }

  // --- Main results ---

  /** Counters survive reaping: while the pool is open and no reap pass is in
      progress, lifetime plus the live counters is everything ever counted. */
  lemma CountersSurviveReaping(run: seq<Pool>, n: nat, m: Meter)
    requires IsRun(run) && n < |run| && !run[n].drained && run[n].reaper.Resting?
    ensures run[n].lifetime.At(m) + Total(run[n].tally, m, run[n].instances) == run[n].answered.At(m)
  {
    RunKeepsAccounts(run, n);
    assert Balanced(run[n], m);
  }

  /** A report counts every invoke that was counted before its snapshot, and
      none that was not counted by its end: no loss, no double counting.  Its
      errors are as exact unless the row is left at its zero values, which
      drops them exactly when there are no invokes and no warm instance. */
  lemma StatsInvokesAreExact(run: seq<Pool>, n: nat)
    requires IsRun(run) && n < |run| && Enabled(run[n], ReportEnd)
    ensures var s := run[n];
            var row := Row(s.reporter.snap != [], s.reporter.sum);
            && Apply(s, ReportEnd).reports == s.reports + [row]
            && s.reporter.floor.invokes <= row.invokes <= s.answered.invokes
            && (s.reporter.floor.errors <= row.errors <= s.answered.errors
                <==> s.reporter.snap != [] || row.invokes > 0 || s.reporter.floor.errors == 0)
  {
    RunKeepsAccounts(run, n);
    SumAtEnd(run[n]);
  }

  /** Reported invokes never go down while the pool stays the function's pool. */
  lemma StatsInvokesNeverDecrease(run: seq<Pool>, n: nat, i: nat, j: nat)
    requires IsRun(run) && n < |run| && i <= j < |run[n].reports|
    ensures run[n].reports[i].invokes <= run[n].reports[j].invokes
  {
    hide Next;
    RunKeepsAccounts(run, n);
  }
}
