/** The critical sections of the instance pool as the gateway writes them: loops
    over a slice of instances that are changed in place. */
module InstancePool {
  import opened Filtering
  import opened PoolModel
  import opened Options

  class ManagedInstance {
    const created: int
    const coldStart: int
    var busy: bool
    var invokes: nat
    var errors: nat
    var totalNS: int
    var lastUsedNS: int
    var closes: nat            // how often spawn.Instance.Close ran

    constructor (now: int, coldStart: int)
      ensures created == now && this.coldStart == coldStart
      ensures busy && invokes == 0 && errors == 0 && totalNS == 0 && lastUsedNS == now && closes == 0
    {
      created, this.coldStart := now, coldStart;
      busy, invokes, errors, totalNS, lastUsedNS, closes := true, 0, 0, 0, now, 0;
    }

    function LastUsed(): int
      reads this`lastUsedNS
    {
      if lastUsedNS == 0 then created else lastUsedNS
    }

    function Read(m: Meter): int
      reads this`invokes, this`errors, this`totalNS
    {
      match m
      case Invokes => invokes
      case Errors => errors
      case Nanos => totalNS
    }

    /** Free, and idle for at least ttl. */
    predicate Reapable(now: int, ttl: int)
      reads this`busy, this`lastUsedNS
    {
      !busy && now - LastUsed() >= ttl
    }

    method TryLock() returns (ok: bool)
      modifies this`busy
      ensures ok == !old(busy) && busy
    {
      ok := !busy;
      busy := true;
    }

    method Close()
      modifies this`closes
      ensures closes == old(closes) + 1
    {
      closes := closes + 1;
    }
  }

  datatype Outcome = Took(mi: ManagedInstance) | StartSpawn | MustWait

  /** One function's row in the statistics; times are absent without warm instances. */
  datatype Warm = Warm(startedAt: int, lastUsed: int, coldStart: int)
  datatype FunctionStats =
    FunctionStats(poolSize: nat, invokes: nat, errors: nat, averageMs: real, warm: Option<Warm>)

  /** Duration.Milliseconds, which truncates toward zero. */
  function Millis(ns: int): (ms: int)
    ensures ns >= 0 ==> ms * 1_000_000 <= ns < (ms + 1) * 1_000_000
    ensures ns <= 0 ==> (ms - 1) * 1_000_000 < ns <= ms * 1_000_000
  {
    if ns >= 0 then ns / 1_000_000 else -(-ns / 1_000_000)
  }

  function Average(ns: int, invokes: nat): real {
    if invokes > 0 then Millis(ns) as real / invokes as real else 0.0
  }

  class Pool {
    const maxSize: nat
    const slots: array<ManagedInstance?>   // backing array of the instance slice
    var len: nat
    var spawning: nat
    var wakeups: nat                       // how often cond.Broadcast ran
    var lifetimeInvokes: nat
    var lifetimeErrors: nat
    var lifetimeTotalDur: int

    ghost predicate Valid()
      reads this`len, this`spawning, slots
    {
      && slots.Length == maxSize >= 1
      && len + spawning <= maxSize
      && (forall i :: 0 <= i < len ==> slots[i] != null)
      && (forall i, j :: 0 <= i < j < len ==> slots[i] != slots[j])
    }

    /** The instances of the pool in slice order. */
    ghost function Live(): (s: seq<ManagedInstance>)
      requires Valid()
      reads this, slots
      ensures |s| == len && Distinct(s) && forall i :: 0 <= i < len ==> s[i] == slots[i]
    {
      seq(len, i requires 0 <= i < len && Valid() reads this, slots => slots[i])
    }

    ghost function Members(): set<ManagedInstance>
      requires Valid()
      reads this, slots
    {
      Elements(Live())
    }

    function Lifetime(m: Meter): int
      reads this`lifetimeInvokes, this`lifetimeErrors, this`lifetimeTotalDur
    {
      match m
      case Invokes => lifetimeInvokes
      case Errors => lifetimeErrors
      case Nanos => lifetimeTotalDur
    }

    /** Everything this pool has counted: reaped instances plus live ones. */
    ghost function Ledger(m: Meter): int
      requires Valid()
      reads this, slots, Live()`invokes, Live()`errors, Live()`totalNS
    {
      Lifetime(m) + Sum(Live(), m)
    }

    constructor (maxSize: nat)
      requires maxSize >= 1
      ensures Valid() && this.maxSize == maxSize && len == 0 && spawning == 0 && fresh(slots)
      ensures Lifetime(Invokes) == Lifetime(Errors) == Lifetime(Nanos) == 0
    {
      this.maxSize := maxSize;
      slots := new ManagedInstance?[maxSize](_ => null);
      len, spawning, wakeups := 0, 0, 0;
      lifetimeInvokes, lifetimeErrors, lifetimeTotalDur := 0, 0, 0;
    }

    /** One turn of the acquire loop: the first free instance in slice order,
        else a spawn slot, else wait. */
    method TryAcquire() returns (out: Outcome)
      requires Valid()
      modifies this`spawning, Live()`busy
      ensures Valid() && Live() == old(Live())
      ensures match out
        case Took(mi) =>
          && spawning == old(spawning) && mi.busy
          && (forall m :: m in Members() && m != mi ==> m.busy == old(m.busy))
          && exists i :: 0 <= i < len && Live()[i] == mi && !old(mi.busy) && forall j :: 0 <= j < i ==>
              old(Live()[j].busy)
        case StartSpawn =>
          spawning == old(spawning) + 1 && forall m :: m in Members() ==> m.busy && old(m.busy)
        case MustWait =>
          spawning == old(spawning) && len + spawning == maxSize && forall m :: m in Members() ==> m.busy && old(m.busy)
    {
      var i := 0;
      while i < len
        modifies Live()`busy
        invariant 0 <= i <= len
        invariant forall m :: m in Members() ==> m.busy == old(m.busy)
        invariant forall j :: 0 <= j < i ==> old(Live()[j].busy)
      {
        var mi: ManagedInstance := slots[i];
        assert mi == Live()[i];
        var ok := mi.TryLock();
        if ok { return Took(mi); }
        i := i + 1;
      }
      if len + spawning < maxSize {
        spawning := spawning + 1;
        return StartSpawn;
      }
      return MustWait;
    }

    /** A finished spawn gives its slot to the new, locked instance. */
    method FinishSpawn(mi: ManagedInstance)
      requires Valid() && spawning > 0 && mi !in Live() && mi.busy
      requires mi.invokes == 0 && mi.errors == 0 && mi.totalNS == 0
      modifies this`spawning, this`len, slots
      ensures Valid() && Live() == old(Live()) + [mi] && spawning == old(spawning) - 1
      ensures forall m: Meter :: Ledger(m) == old(Ledger(m))
    {
      spawning := spawning - 1;
      slots[len] := mi;
      len := len + 1;
      assert Live() == old(Live()) + [mi];
      SumSnocAll(old(Live()), mi);
      hide Sum, Valid, Live;
      forall m: Meter ensures Ledger(m) == old(Ledger(m)) {}
    }

    method FailSpawn()
      requires Valid() && spawning > 0
      modifies this`spawning, this`wakeups
      ensures Valid() && Live() == old(Live()) && spawning == old(spawning) - 1 && wakeups == old(wakeups) + 1
    {
      spawning := spawning - 1;
      wakeups := wakeups + 1;
    }

    /** Who is about to be reaped: free and idle long enough, at this moment. */
    ghost function Expired(now: int, ttl: int): set<ManagedInstance>
      requires Valid()
      reads this, slots, Members()
    {
      set m | m in Members() && m.Reapable(now, ttl)
    }

    /** The reaper at one instance: a busy one is left alone, an expired one is
        kept locked and its counters rolled up, a fresh one is unlocked again. */
    method Catch(mi: ManagedInstance, now: int, ttl: int) returns (caught: bool)
      modifies mi`busy, this`lifetimeInvokes, this`lifetimeErrors, this`lifetimeTotalDur
      ensures caught == old(mi.Reapable(now, ttl))
      ensures mi.busy == (old(mi.busy) || caught)
      ensures forall m: Meter :: Lifetime(m) == old(Lifetime(m)) + if caught then mi.Read(m) else 0
    {
      var locked := mi.TryLock();
      if !locked { return false; }
      if now - mi.LastUsed() >= ttl {
        lifetimeInvokes := lifetimeInvokes + mi.invokes;
        lifetimeErrors := lifetimeErrors + mi.errors;
        lifetimeTotalDur := lifetimeTotalDur + mi.totalNS;
        return true;
      }
      mi.busy := false;
      return false;
    }

    /** The body of the reaper's loop, at index i with k instances kept so far. */
    method Visit(i: nat, k: nat, taken: seq<ManagedInstance>, now: int, ttl: int,
                 ghost was: seq<ManagedInstance>, ghost dead: set<ManagedInstance>)
      returns (k': nat, victims: seq<ManagedInstance>)
      requires k <= i < |was| <= slots.Length && Distinct(was) && Filtered(was, dead, i, k, taken)
      requires was[i] in dead <==> was[i].Reapable(now, ttl)
      modifies this`lifetimeInvokes, this`lifetimeErrors, this`lifetimeTotalDur, slots, {was[i]}`busy
      ensures k' <= i + 1 && Filtered(was, dead, i + 1, k', victims)
      ensures was[i].busy == (old(was[i].busy) || was[i] in dead)
      ensures forall m: Meter :: Lifetime(m) - Sum(victims, m) == old(Lifetime(m) - Sum(taken, m))
    {
      var mi: ManagedInstance := slots[i];
      assert mi == was[i];
      FilterOneMore(was, dead, i);
      SumSnocAll(taken, mi);
      ghost var w := Without(was[..i], dead);
      assert |w| == k && forall j :: 0 <= j < k ==> slots[j] == w[j];
      hide Sum, Without, Only, Distinct, Lifetime, ManagedInstance.Reapable, ManagedInstance.Read;
      var caught := Catch(mi, now, ttl);
      if caught {
        k', victims := k, taken + [mi];
      } else {
        slots[k] := mi;
        k', victims := k + 1, taken;
      }
      ghost var w' := Without(was[..i + 1], dead);
      assert |w'| == k' && forall j :: 0 <= j < k' ==> slots[j] == w'[j];
      assert forall j :: i + 1 <= j < |was| ==> slots[j] == was[j];
    }

    /** The reaper's pass: filters the slice in place, rolls the counters of the
        victims into the pool totals, and keeps every victim locked.  What the
        pool has counted in all stays what it was. */
    method ReapOnce(now: int, ttl: int) returns (victims: seq<ManagedInstance>)
      requires Valid()
      modifies this`len, this`wakeups, this`lifetimeInvokes, this`lifetimeErrors, this`lifetimeTotalDur, slots,
          Live()`busy
      ensures Valid()
      ensures Live() == Without(old(Live()), old(Expired(now, ttl)))
      ensures victims == Only(old(Live()), old(Expired(now, ttl)))
      ensures forall m :: m in old(Live()) ==>
        (m in victims <==>
          old(!m.busy && now - (if m.lastUsedNS == 0 then m.created else m.lastUsedNS) >= ttl))
      ensures forall m :: m in old(Live()) ==> (m in Live() <==> m !in victims)
      ensures forall m :: m in old(Live()) && old(m.lastUsedNS != 0 && now - m.lastUsedNS < ttl) ==>
        m in Live() && m.busy == old(m.busy)
      ensures forall m :: m in old(Members()) ==> m.busy == (old(m.busy) || m in old(Expired(now, ttl)))
      ensures forall m: Meter :: Ledger(m) == old(Ledger(m))
      ensures wakeups == old(wakeups) + if victims == [] then 0 else 1
    {
      ghost var was, dead := Live(), Expired(now, ttl);
      WhoExpires(now, ttl);
      victims := ReapPass(now, ttl);
      Membership(was, dead);
      hide Sum, Without, Only, Live, Expired, Valid;
      forall m: Meter
        ensures Ledger(m) == old(Ledger(m))
      {
        assert Sum(was, m) == old(Sum(was, m));
        LedgerKept(was, dead, victims, old(Lifetime(m)), m);
      }
    }

    /** Expired means: nobody holds it, and its last use, or its creation if it was never
        used, is ttl ago. */
    lemma WhoExpires(now: int, ttl: int)
      requires Valid()
      ensures forall m :: m in Live() ==>
        (m in Expired(now, ttl) <==>
          !m.busy && now - (if m.lastUsedNS == 0 then m.created else m.lastUsedNS) >= ttl)
    {
    }

    lemma LedgerKept(was: seq<ManagedInstance>, dead: set<ManagedInstance>, victims: seq<ManagedInstance>, before: int,
        m: Meter)
      requires Valid() && Live() == Without(was, dead) && victims == Only(was, dead) &&
          Lifetime(m) == before + Sum(victims, m)
      ensures Ledger(m) == before + Sum(was, m)
    {
      SumSplits(was, dead, m);
    }

    lemma PassStart(now: int, ttl: int)
      requires Valid()
      ensures var was, dead := Live(), Expired(now, ttl);
        && slots.Length == maxSize >= 1 && len + spawning <= maxSize
        && |was| == len && Distinct(was) && (forall j :: 0 <= j < len ==> slots[j] == was[j])
        && (forall j :: 0 <= j < len ==> (was[j] in dead <==> was[j].Reapable(now, ttl)))
    {
    }

    method ReapPass(now: int, ttl: int) returns (victims: seq<ManagedInstance>)
      requires Valid()
      modifies this`len, this`wakeups, this`lifetimeInvokes, this`lifetimeErrors, this`lifetimeTotalDur, slots,
          Live()`busy
      ensures Valid()
      ensures Live() == Without(old(Live()), old(Expired(now, ttl)))
      ensures victims == Only(old(Live()), old(Expired(now, ttl)))
      ensures forall m :: m in old(Live()) ==> m.busy == (old(m.busy) || m in old(Expired(now, ttl)))
      ensures forall m: Meter :: Lifetime(m) == old(Lifetime(m)) + Sum(victims, m)
      ensures wakeups == old(wakeups) + if victims == [] then 0 else 1
    {
      ghost var was, dead := Live(), Expired(now, ttl);
      hide *;
      PassStart(now, ttl);
      victims := FilterPass(now, ttl, was, dead);
    }

    method FilterPass(now: int, ttl: int, ghost was: seq<ManagedInstance>, ghost dead: set<ManagedInstance>)
      returns (victims: seq<ManagedInstance>)
      requires slots.Length == maxSize >= 1 && len + spawning <= maxSize
      requires len == |was| <= slots.Length && Distinct(was) && forall j :: 0 <= j < len ==> slots[j] == was[j]
      requires forall j :: 0 <= j < len ==> (was[j] in dead <==> was[j].Reapable(now, ttl))
      modifies this`len, this`wakeups, this`lifetimeInvokes, this`lifetimeErrors, this`lifetimeTotalDur, slots,
          was`busy
      ensures Valid() && Live() == Without(was, dead) && victims == Only(was, dead)
      ensures forall m :: m in was ==> m.busy == (old(m.busy) || m in dead)
      ensures forall m: Meter :: Lifetime(m) == old(Lifetime(m)) + Sum(victims, m)
      ensures wakeups == old(wakeups) + if victims == [] then 0 else 1
    {
      hide Sum, Filtered, Without, Only, Live, Valid, Distinct, Lifetime, ManagedInstance.Reapable;
      var k: nat;
      k, victims := FilterInPlace(now, ttl, was, dead);
      len := k;
      PassDone(was, dead, victims);
      if victims != [] { wakeups := wakeups + 1; }
    }

    /** The loop of the pass over the whole slice. */
    method FilterInPlace(now: int, ttl: int, ghost was: seq<ManagedInstance>, ghost dead: set<ManagedInstance>)
      returns (k: nat, victims: seq<ManagedInstance>)
      requires len == |was| <= slots.Length && Distinct(was) && forall j :: 0 <= j < len ==> slots[j] == was[j]
      requires forall j :: 0 <= j < len ==> (was[j] in dead <==> was[j].Reapable(now, ttl))
      modifies this`lifetimeInvokes, this`lifetimeErrors, this`lifetimeTotalDur, slots, was`busy
      ensures k <= len && Filtered(was, dead, len, k, victims)
      ensures forall j :: 0 <= j < len ==> was[j].busy == (old(was[j].busy) || was[j] in dead)
      ensures forall m: Meter :: Lifetime(m) - Sum(victims, m) == old(Lifetime(m))
    {
      FilteredNone(was, dead);
      hide Sum, Filtered;
      victims, k := [], 0;
      for i := 0 to len
        invariant k <= i && Filtered(was, dead, i, k, victims)
        invariant forall j :: 0 <= j < len ==> was[j].busy == (old(was[j].busy) || (j < i && was[j] in dead))
        invariant forall j :: i <= j < len ==> (was[j] in dead <==> was[j].Reapable(now, ttl))
        invariant forall m: Meter :: Lifetime(m) - Sum(victims, m) == old(Lifetime(m))
      {
        k, victims := Visit(i, k, victims, now, ttl, was, dead);
      }
    }

    lemma PassDone(was: seq<ManagedInstance>, dead: set<ManagedInstance>, victims: seq<ManagedInstance>)
      requires slots.Length == maxSize >= 1 && len + spawning <= maxSize
      requires len <= |was| <= slots.Length && Distinct(was) && Filtered(was, dead, |was|, len, victims)
      ensures Valid() && Live() == Without(was, dead) && victims == Only(was, dead)
    {
      assert was[..|was|] == was;
      DistinctFilters(was, dead);
      assert Live() == Without(was, dead);
    }

    lemma FilteredNone(was: seq<ManagedInstance>, dead: set<ManagedInstance>)
      requires |was| <= slots.Length && forall j :: 0 <= j < |was| ==> slots[j] == was[j]
      ensures Filtered(was, dead, 0, 0, [])
      ensures forall m: Meter :: Sum([], m) == 0
    {
    }

    /** The state of the in-place filter: the first k slots hold what is kept of
        the first i instances, and the slots from i on are still untouched. */
    ghost predicate Filtered(was: seq<ManagedInstance>, dead: set<ManagedInstance>, i: nat, k: nat,
        victims: seq<ManagedInstance>)
      requires k <= i <= |was| <= slots.Length
      reads slots
    {
      && |Without(was[..i], dead)| == k
      && (forall j :: 0 <= j < k ==> slots[j] == Without(was[..i], dead)[j])
      && (forall j :: i <= j < |was| ==> slots[j] == was[j])
      && victims == Only(was[..i], dead)
    }

    /** Takes the whole slice and closes every instance once, busy or not. */
    method CloseAll()
      requires Valid()
      modifies this`len, Live()`closes
      ensures Valid() && Live() == [] && len == 0 && wakeups == old(wakeups)
      ensures forall m :: m in old(Live()) ==> m.closes == old(m.closes) + 1
    {
      ghost var was := Live();
      var n := len;
      len := 0;
      var i := 0;
      while i < n
        modifies was`closes
        invariant 0 <= i <= n == |was| && n <= slots.Length
        invariant forall j :: 0 <= j < n ==> slots[j] == was[j]
        invariant forall j :: 0 <= j < n ==> was[j].closes == old(was[j].closes) + if j < i then 1 else 0
      {
        var mi: ManagedInstance := slots[i];
        mi.Close();
        i := i + 1;
      }
    }

    /** What Stats reports for this pool. */
    method Stats() returns (row: FunctionStats)
      requires Valid()
      ensures row.poolSize == len
      ensures row.invokes == Ledger(Invokes)
      ensures row.errors == if len > 0 || row.invokes > 0 then Ledger(Errors) else 0
      ensures row.averageMs == if row.invokes > 0 then Millis(Ledger(Nanos)) as real / row.invokes as real else 0.0
      ensures row.warm.Some? <==> len > 0
      ensures row.warm.Some? ==> Extremes(Live(), row.warm.value)
    {
      if len > 0 {
        row := WarmStats();
      } else {
        assert Live() == [];
        row := if lifetimeInvokes > 0
          then FunctionStats(0, lifetimeInvokes, lifetimeErrors, Average(lifetimeTotalDur, lifetimeInvokes), None)
          else FunctionStats(0, 0, 0, 0.0, None);
      }
    }

    method WarmStats() returns (row: FunctionStats)
      requires Valid() && len > 0
      ensures row.poolSize == len && row.invokes == Ledger(Invokes) && row.errors == Ledger(Errors)
      ensures row.averageMs == Average(Ledger(Nanos), row.invokes)
      ensures row.warm.Some? && Extremes(Live(), row.warm.value)
    {
      var inv, err, dur, w := Aggregate(Live());
      var invokes := inv + lifetimeInvokes;
      row := FunctionStats(len, invokes, err + lifetimeErrors, Average(dur + lifetimeTotalDur, invokes), Some(w));
    }

    /** The loop of Stats over the instances of one pool. */
    method Aggregate(ghost live: seq<ManagedInstance>)
      returns (totalInv: nat, totalErr: nat, totalDur: int, w: Warm)
      requires 0 < len == |live| <= slots.Length && forall j :: 0 <= j < len ==> slots[j] == live[j]
      ensures totalInv == Sum(live, Invokes) && totalErr == Sum(live, Errors) && totalDur == Sum(live, Nanos)
      ensures Extremes(live, w)
    {
      hide Sum, Extremes, SoFar;
      var first: ManagedInstance := slots[0];
      var earliest, latest, minCold := first.created, first.LastUsed(), first.coldStart;
      totalInv, totalErr, totalDur := 0, 0, 0;
      SumNone();
      SoFarNone(live);
      for i := 0 to len
        invariant totalInv == Sum(live[..i], Invokes) && totalErr == Sum(live[..i], Errors)
        invariant totalDur == Sum(live[..i], Nanos)
        invariant SoFar(live, i, Warm(earliest, latest, minCold))
      {
        var mi: ManagedInstance := slots[i];
        assert mi.Read(Invokes) == mi.invokes && mi.Read(Errors) == mi.errors && mi.Read(Nanos) == mi.totalNS;
        w := Warm(earliest, latest, minCold);
        totalInv := totalInv + mi.invokes;
        totalErr := totalErr + mi.errors;
        totalDur := totalDur + mi.totalNS;
        if mi.created < earliest { earliest := mi.created; }
        if mi.LastUsed() > latest { latest := mi.LastUsed(); }
        if mi.coldStart < minCold { minCold := mi.coldStart; }
        SumOneMore(live, i);
        SoFarOneMore(live, i, w, Warm(earliest, latest, minCold));
      }
      w := Warm(earliest, latest, minCold);
      SoFarAll(live, w);
    }
  }

  lemma SumNone()
    ensures forall m: Meter :: Sum([], m) == 0
  {
  }

  /** The running extremes start from the first instance's own times. */
  ghost predicate SoFar(live: seq<ManagedInstance>, i: nat, w: Warm)
    requires i <= |live|
    reads live`lastUsedNS
  {
    if i == 0 then live != [] && w == Warm(live[0].created, live[0].LastUsed(), live[0].coldStart)
    else Extremes(live[..i], w)
  }

  lemma SoFarNone(live: seq<ManagedInstance>)
    requires live != []
    ensures SoFar(live, 0, Warm(live[0].created, live[0].LastUsed(), live[0].coldStart))
  {
  }

  lemma SoFarAll(live: seq<ManagedInstance>, w: Warm)
    requires live != [] && SoFar(live, |live|, w)
    ensures Extremes(live, w)
    ensures live[..|live|] == live
  {
  }

  lemma SumOneMore(live: seq<ManagedInstance>, i: nat)
    requires i < |live|
    ensures forall m: Meter :: Sum(live[..i + 1], m) == Sum(live[..i], m) + live[i].Read(m)
  {
    assert live[..i + 1] == live[..i] + [live[i]];
    hide Sum;
    SumSnocAll(live[..i], live[i]);
  }

  lemma SoFarOneMore(live: seq<ManagedInstance>, i: nat, w: Warm, w': Warm)
    requires i < |live|
    requires var y := live[i];
      && SoFar(live, i, w)
      && w'.startedAt == (if y.created < w.startedAt then y.created else w.startedAt)
      && w'.lastUsed == (if y.LastUsed() > w.lastUsed then y.LastUsed() else w.lastUsed)
      && w'.coldStart == (if y.coldStart < w.coldStart then y.coldStart else w.coldStart)
    ensures SoFar(live, i + 1, w')
  {
    hide Extremes;
    assert live[..i + 1] == live[..i] + [live[i]];
    ExtremesSnoc(live[..i], w, live[i], w');
  }

  /** Earliest creation, latest use and shortest cold start, each attained. */
  ghost predicate Extremes(ms: seq<ManagedInstance>, w: Warm)
    reads ms`lastUsedNS
  {
    && (forall x :: x in ms ==> w.startedAt <= x.created && w.coldStart <= x.coldStart)
    && (forall x :: x in ms ==> (if x.lastUsedNS == 0 then x.created else x.lastUsedNS) <= w.lastUsed)
    && (exists x :: x in ms && w.startedAt == x.created)
    && (exists x :: x in ms && w.lastUsed == if x.lastUsedNS == 0 then x.created else x.lastUsedNS)
    && (exists x :: x in ms && w.coldStart == x.coldStart)
  }

  lemma ExtremesSnoc(ms: seq<ManagedInstance>, w: Warm, y: ManagedInstance, w': Warm)
    requires ms == [] ==> w == Warm(y.created, y.LastUsed(), y.coldStart)
    requires ms != [] ==> Extremes(ms, w)
    requires w'.startedAt == (if y.created < w.startedAt then y.created else w.startedAt)
    requires w'.lastUsed == (if y.LastUsed() > w.lastUsed then y.LastUsed() else w.lastUsed)
    requires w'.coldStart == (if y.coldStart < w.coldStart then y.coldStart else w.coldStart)
    ensures Extremes(ms + [y], w')
  {
    assert y in ms + [y];
    assert forall x :: x in ms ==> x in ms + [y];
    forall x | x in ms && w.startedAt == x.created ensures x in ms + [y] {}
  }

  /** The reaper after its pass: every victim is closed, then unlocked. */
  method CloseVictims(victims: seq<ManagedInstance>)
    requires Distinct(victims)
    modifies victims`closes, victims`busy
    ensures forall m :: m in victims ==> m.closes == old(m.closes) + 1 && !m.busy
  {
    for i := 0 to |victims|
      invariant forall j :: 0 <= j < |victims| ==>
        victims[j].closes == old(victims[j].closes) + (if j < i then 1 else 0) && (j < i ==> !victims[j].busy)
    {
      victims[i].Close();
      victims[i].busy := false;
    }
  }

  lemma FilterOneMore(was: seq<ManagedInstance>, dead: set<ManagedInstance>, i: nat)
    requires Distinct(was) && i < |was|
    ensures Without(was[..i + 1], dead) == Without(was[..i], dead) + if was[i] in dead then [] else [was[i]]
    ensures Only(was[..i + 1], dead) == Only(was[..i], dead) + if was[i] in dead then [was[i]] else []
    ensures was[i] !in Only(was[..i], dead)
  {
    assert was[..i + 1][..i] == was[..i];
    Membership(was[..i], dead);
  }

  /** The sum of one counter over instances. */
  ghost function Sum(ms: seq<ManagedInstance>, m: Meter): int
    reads ms`invokes, ms`errors, ms`totalNS
  {
    if ms == [] then 0 else Sum(ms[..|ms| - 1], m) + ms[|ms| - 1].Read(m)
  }

  lemma SumSnoc(ms: seq<ManagedInstance>, x: ManagedInstance, m: Meter)
    ensures Sum(ms + [x], m) == Sum(ms, m) + x.Read(m)
  {
    assert (ms + [x])[..|ms|] == ms;
  }

  lemma SumSnocAll(ms: seq<ManagedInstance>, x: ManagedInstance)
    ensures forall m: Meter :: Sum(ms + [x], m) == Sum(ms, m) + x.Read(m)
  {
    forall m: Meter ensures Sum(ms + [x], m) == Sum(ms, m) + x.Read(m) { SumSnoc(ms, x, m); }
  }

  lemma {:induction false} SumSplits(ms: seq<ManagedInstance>, dead: set<ManagedInstance>, m: Meter)
    ensures Sum(ms, m) == Sum(Without(ms, dead), m) + Sum(Only(ms, dead), m)
  {
    if ms != [] {
      var front, x := ms[..|ms| - 1], ms[|ms| - 1];
      SumSplits(front, dead, m);
      assert Without(front, dead) + [] == Without(front, dead) && Only(front, dead) + [] == Only(front, dead);
      if x in dead { SumSnoc(Only(front, dead), x, m); } else { SumSnoc(Without(front, dead), x, m); }
    }
  }
}
